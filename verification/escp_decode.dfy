/**
 * A reference reading of the ESC/P subset the serializer uses: the byte
 * stream as a sequence of commands, and what a printer does with them.
 * This is independent of the serializer and is what its output is checked
 * against.
 */
module EscpDecode {
  import opened Seqs
  import opened Base
  import opened Cells

  /** One ESC/P command of the subset. */
  datatype Command =
    | Initialize      // ESC @
    | Condensed       // SI
    | BoldOn          // ESC E
    | BoldOff         // ESC F
    | UnderlineOn     // ESC - 1
    | UnderlineOff    // ESC - 0
    | CarriageReturn  // CR
    | LineFeed        // LF
    | FormFeed        // FF
    | Print(b: Printable)

  /** The wire form of a command. */
  function Encode(c: Command): (bytes: seq<U8>)
    ensures 1 <= |bytes| <= 3
    ensures bytes[|bytes| - 1] != 0x1B
  {
    var bytes: seq<U8> := match c
    case Initialize => [0x1B, 0x40]
    case Condensed => [0x0F]
    case BoldOn => [0x1B, 0x45]
    case BoldOff => [0x1B, 0x46]
    case UnderlineOn => [0x1B, 0x2D, 0x01]
    case UnderlineOff => [0x1B, 0x2D, 0x00]
    case CarriageReturn => [0x0D]
    case LineFeed => [0x0A]
    case FormFeed => [0x0C]
    case Print(b) => [b as int];
    bytes
  }

  function EncodeAll(cs: seq<Command>): seq<U8>
  {
    if |cs| == 0 then [] else Encode(cs[0]) + EncodeAll(cs[1..])
  }

  lemma {:induction false} EncodeAllAppend(a: seq<Command>, b: seq<Command>)
    ensures EncodeAll(a + b) == EncodeAll(a) + EncodeAll(b)
    decreases |a|
  {
    if |a| == 0 {
      assert a + b == b;
    } else {
      assert (a + b)[0] == a[0] && (a + b)[1..] == a[1..] + b;
      EncodeAllAppend(a[1..], b);
    }
  }

  /**
   * Reads the command at the front of a non-empty stream: the command and the
   * number of bytes it takes, or None for a byte outside the subset or a
   * truncated escape sequence.
   */
  function DecodeOne(s: seq<U8>): (r: Option<(Command, nat)>)
    requires |s| > 0
    ensures r.Some? ==> 1 <= r.value.1 <= |s| && s[..r.value.1] == Encode(r.value.0)
  {
    var b := s[0];
    if b == 0x1B then
      if |s| < 2 then None
      else if s[1] == 0x40 then Some((Initialize, 2))
      else if s[1] == 0x45 then Some((BoldOn, 2))
      else if s[1] == 0x46 then Some((BoldOff, 2))
      else if s[1] == 0x2D && |s| >= 3 && s[2] == 0x01 then Some((UnderlineOn, 3))
      else if s[1] == 0x2D && |s| >= 3 && s[2] == 0x00 then Some((UnderlineOff, 3))
      else None
    else if b == 0x0F then Some((Condensed, 1))
    else if b == 0x0D then Some((CarriageReturn, 1))
    else if b == 0x0A then Some((LineFeed, 1))
    else if b == 0x0C then Some((FormFeed, 1))
    else if 32 <= b <= 126 then Some((Print(b), 1))
    else None
  }

  /** The whole stream as commands, or None if some part is not in the subset. */
  function Decode(s: seq<U8>): (r: Option<seq<Command>>)
    decreases |s|
  {
    if |s| == 0 then Some([])
    else match DecodeOne(s)
      case None => None
      case Some((c, n)) =>
        match Decode(s[n..])
        case None => None
        case Some(rest) => Some([c] + rest)
  }

  lemma DecodeOneEncode(c: Command, rest: seq<U8>)
    ensures DecodeOne(Encode(c) + rest) == Some((c, |Encode(c)|))
  {
  }

  /** Decoding an encoding gives back the commands. */
  lemma {:induction false} DecodeEncode(cs: seq<Command>)
    ensures Decode(EncodeAll(cs)) == Some(cs)
    decreases |cs|
  {
    if |cs| > 0 {
      var e := Encode(cs[0]);
      DecodeOneEncode(cs[0], EncodeAll(cs[1..]));
      DropPrefix(e, EncodeAll(cs[1..]));
      DecodeEncode(cs[1..]);
      HeadTail(cs);
    }
  }

  /** A stream that decodes is exactly the encoding of what it decodes to. */
  lemma {:induction false} EncodeDecode(s: seq<U8>)
    requires Decode(s).Some?
    ensures EncodeAll(Decode(s).value) == s
    decreases |s|
  {
    if |s| > 0 {
      var (c, n) := DecodeOne(s).value;
      EncodeDecode(s[n..]);
      var cs := Decode(s).value;
      assert cs[0] == c && cs[1..] == Decode(s[n..]).value;
      SplitAt(s, n);
    }
  }

  /** Decoding distributes over concatenation of decodable streams. */
  lemma DecodeAppend(a: seq<U8>, b: seq<U8>)
    requires Decode(a).Some? && Decode(b).Some?
    ensures Decode(a + b) == Some(Decode(a).value + Decode(b).value)
  {
    var ca, cb := Decode(a).value, Decode(b).value;
    EncodeDecode(a);
    EncodeDecode(b);
    EncodeAllAppend(ca, cb);
    DecodeEncode(ca + cb);
  }

  function CountCommand(cs: seq<Command>, c: Command): nat
  {
    if |cs| == 0 then 0 else (if cs[0] == c then 1 else 0) + CountCommand(cs[1..], c)
  }

  lemma {:induction false} CountCommandAppend(a: seq<Command>, b: seq<Command>, c: Command)
    ensures CountCommand(a + b, c) == CountCommand(a, c) + CountCommand(b, c)
    decreases |a|
  {
    if |a| == 0 {
      assert a + b == b;
    } else {
      assert (a + b)[0] == a[0] && (a + b)[1..] == a[1..] + b;
      CountCommandAppend(a[1..], b, c);
    }
  }

  function CountByte(s: seq<U8>, b: U8): nat
  {
    if |s| == 0 then 0 else (if s[0] == b then 1 else 0) + CountByte(s[1..], b)
  }

  lemma {:induction false} CountByteAppend(a: seq<U8>, b: seq<U8>, x: U8)
    ensures CountByte(a + b, x) == CountByte(a, x) + CountByte(b, x)
    decreases |a|
  {
    if |a| == 0 {
      assert a + b == b;
    } else {
      assert (a + b)[0] == a[0] && (a + b)[1..] == a[1..] + b;
      CountByteAppend(a[1..], b, x);
    }
  }

  /**
   * Number of places where byte `x` is immediately followed by byte `y`
   * (a count of two-byte windows).
   */
  function CountPair(s: seq<U8>, x: U8, y: U8): nat
  {
    if |s| < 2 then 0 else (if s[0] == x && s[1] == y then 1 else 0) + CountPair(s[1..], x, y)
  }

  lemma {:induction false} CountPairAppend(a: seq<U8>, b: seq<U8>, x: U8, y: U8)
    requires |a| == 0 || a[|a| - 1] != x
    ensures CountPair(a + b, x, y) == CountPair(a, x, y) + CountPair(b, x, y)
    decreases |a|
  {
    if |a| == 0 {
      assert a + b == b;
    } else if |a| == 1 {
      assert (a + b)[1..] == b;
    } else {
      assert (a + b)[1..] == a[1..] + b;
      CountPairAppend(a[1..], b, x, y);
    }
  }

  lemma CommandCounts(c: Command)
    ensures CountByte(Encode(c), 0x0C) == (if c == FormFeed then 1 else 0)
    ensures CountPair(Encode(c), 0x1B, 0x45) == (if c == BoldOn then 1 else 0)
    ensures CountPair(Encode(c), 0x1B, 0x46) == (if c == BoldOff then 1 else 0)
  {
    var e := Encode(c);
    assert CountByte(e, 0x0C) == (if e[0] == 0x0C then 1 else 0) + CountByte(e[1..], 0x0C);
    if |e| >= 2 {
      assert CountByte(e[1..], 0x0C) == (if e[1] == 0x0C then 1 else 0) + CountByte(e[2..], 0x0C);
      assert e[1..][1..] == e[2..];
      if |e| == 3 {
        assert CountByte(e[2..], 0x0C) == (if e[2] == 0x0C then 1 else 0) + CountByte(e[3..], 0x0C);
        assert CountPair(e[1..], 0x1B, 0x45) == 0 && CountPair(e[1..], 0x1B, 0x46) == 0;
      }
    }
  }

  /** The form-feed byte occurs once per FF command and nowhere else. */
  lemma {:induction false} FormFeedBytes(cs: seq<Command>)
    ensures CountByte(EncodeAll(cs), 0x0C) == CountCommand(cs, FormFeed)
    decreases |cs|
  {
    if |cs| > 0 {
      CountByteAppend(Encode(cs[0]), EncodeAll(cs[1..]), 0x0C);
      FormFeedBytes(cs[1..]);
      CommandCounts(cs[0]);
    }
  }

  /** A window `1B 45` occurs once per ESC E command and nowhere else. */
  lemma {:induction false} BoldOnWindows(cs: seq<Command>)
    ensures CountPair(EncodeAll(cs), 0x1B, 0x45) == CountCommand(cs, BoldOn)
    decreases |cs|
  {
    if |cs| > 0 {
      CountPairAppend(Encode(cs[0]), EncodeAll(cs[1..]), 0x1B, 0x45);
      BoldOnWindows(cs[1..]);
      CommandCounts(cs[0]);
    }
  }

  /** A window `1B 46` occurs once per ESC F command and nowhere else. */
  lemma {:induction false} BoldOffWindows(cs: seq<Command>)
    ensures CountPair(EncodeAll(cs), 0x1B, 0x46) == CountCommand(cs, BoldOff)
    decreases |cs|
  {
    if |cs| > 0 {
      CountPairAppend(Encode(cs[0]), EncodeAll(cs[1..]), 0x1B, 0x46);
      BoldOffWindows(cs[1..]);
      CommandCounts(cs[0]);
    }
  }

  /**
   * The printer as the commands leave it: style flags, condensed mode, the
   * carriage column, the line being printed, the finished lines of the
   * current sheet, and the ejected sheets.
   */
  datatype Printer = Printer(
    bold: bool, underline: bool, condensed: bool,
    column: nat, line: seq<Cell>, lines: seq<seq<Cell>>, sheets: seq<seq<seq<Cell>>>)

  const POWER_ON := Printer(false, false, false, 0, [], [], [])

  /** Prints `c` at `column`, padding with blanks if the carriage is past the end. */
  function Put(line: seq<Cell>, column: nat, c: Cell): (r: seq<Cell>)
    ensures |r| == if column < |line| then |line| else column + 1
    ensures r[column] == c
    ensures forall i | 0 <= i < |line| && i != column :: r[i] == line[i]
  {
    if column < |line| then line[column := c]
    else line + seq(column - |line|, _ => EMPTY) + [c]
  }

  /** The effect of one command. */
  function Apply(m: Printer, c: Command): Printer
  {
    match c
    case Initialize => m.(bold := false, underline := false, condensed := false)
    case Condensed => m.(condensed := true)
    case BoldOn => m.(bold := true)
    case BoldOff => m.(bold := false)
    case UnderlineOn => m.(underline := true)
    case UnderlineOff => m.(underline := false)
    case CarriageReturn => m.(column := 0)
    case LineFeed => m.(lines := m.lines + [m.line], line := [])
    case FormFeed => m.(sheets := m.sheets + [m.lines], lines := [], line := [], column := 0)
    case Print(b) =>
      m.(line := Put(m.line, m.column, Cell(b, StyleOf(m.bold, m.underline))), column := m.column + 1)
  }

  function Execute(m: Printer, cs: seq<Command>): Printer
    decreases |cs|
  {
    if |cs| == 0 then m else Execute(Apply(m, cs[0]), cs[1..])
  }

  lemma {:induction false} ExecuteAppend(m: Printer, a: seq<Command>, b: seq<Command>)
    ensures Execute(m, a + b) == Execute(Execute(m, a), b)
    decreases |a|
  {
    if |a| == 0 {
      assert a + b == b;
    } else {
      assert (a + b)[0] == a[0] && (a + b)[1..] == a[1..] + b;
      ExecuteAppend(Apply(m, a[0]), a[1..], b);
    }
  }

  /** Each form feed ejects exactly one sheet. */
  lemma {:induction false} SheetsCountFormFeeds(m: Printer, cs: seq<Command>)
    ensures |Execute(m, cs).sheets| == |m.sheets| + CountCommand(cs, FormFeed)
    decreases |cs|
  {
    if |cs| > 0 {
      SheetsCountFormFeeds(Apply(m, cs[0]), cs[1..]);
    }
  }

  /** What a printer does with a byte stream, or None if it is not in the subset. */
  function Run(m: Printer, s: seq<U8>): (r: Option<Printer>)
    ensures r.Some? <==> Decode(s).Some?
  {
    match Decode(s)
    case None => None
    case Some(cs) => Some(Execute(m, cs))
  }
}
