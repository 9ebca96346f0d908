/**
 * The status byte a printer answers to DLE EOT 1, and the ready test.
 */
module Status {
  /** `PrinterStatus`: the three flags the driver reads from the status byte. */
  datatype PrinterStatus = PrinterStatus(online: bool, paperOut: bool, error: bool)

  const OFFLINE_BIT: bv8 := 0x08
  const PAPER_OUT_BIT: bv8 := 0x20
  const ERROR_BIT: bv8 := 0x40
  /** The only bits `from_byte` reads. */
  const STATUS_MASK: bv8 := 0x68

  /** `from_byte`: online when bit 3 is clear, paper out when bit 5 is set, error when bit 6 is set. */
  function FromByte(b: bv8): (s: PrinterStatus)
    ensures ToByte(s) == b & STATUS_MASK
  {
    PrinterStatus(b & OFFLINE_BIT == 0, b & PAPER_OUT_BIT != 0, b & ERROR_BIT != 0)
  }

  /** `is_ready`: online, with paper, and no error. */
  predicate IsReady(s: PrinterStatus): (r: bool)
    ensures r <==> s == FromByte(0)
  {
    s.online && !s.paperOut && !s.error
  }

  /** The canonical status byte of a status: only bits 3, 5 and 6 set as the flags say. */
  function ToByte(s: PrinterStatus): (b: bv8)
    ensures b & !STATUS_MASK == 0
  {
    (if s.online then 0 else OFFLINE_BIT)
    | (if s.paperOut then PAPER_OUT_BIT else 0)
    | (if s.error then ERROR_BIT else 0)
  }

  /** Every status is read back from its canonical byte. */
  lemma FromToByte(s: PrinterStatus)
    ensures FromByte(ToByte(s)) == s
  {
  }

  /** `from_byte` ignores every bit but 3, 5 and 6. */
  lemma FromByteIgnoresOtherBits(b: bv8)
    ensures FromByte(b) == FromByte(b & STATUS_MASK)
    ensures ToByte(FromByte(b)) == b & STATUS_MASK
  {
  }

  /** A status byte means ready exactly when bits 3, 5 and 6 are all clear. */
  lemma ReadyByte(b: bv8)
    ensures IsReady(FromByte(b)) <==> b & STATUS_MASK == 0
  {
  }

  lemma StatusExamples()
    ensures IsReady(FromByte(0x00)) && FromByte(0x00) == PrinterStatus(true, false, false)
    ensures !FromByte(0x08).online && !IsReady(FromByte(0x08))
    ensures FromByte(0x20).paperOut && !IsReady(FromByte(0x20))
    ensures FromByte(0x40).error && !IsReady(FromByte(0x40))
    ensures IsReady(FromByte(0x97))
  {
  }
}

/**
 * The ESC/P2 driver's connection, with the output stream modelled as the
 * log of bytes sent so far.
 */
module Printers {
  import opened Base
  import opened Status
  import Escp

  datatype Printer = Printer(log: seq<U8>, maxGraphicsWidth: U16)

  /** `Printer::new`: nothing sent yet. */
  function NewPrinter(maxGraphicsWidth: U16): (p: Printer)
    ensures p.log == [] && p.maxGraphicsWidth == maxGraphicsWidth
  {
    Printer([], maxGraphicsWidth)
  }

  /** `max_graphics_width`: the limit given at construction, whatever has been sent since. */
  function MaxGraphicsWidth(p: Printer): (w: U16)
    ensures p == NewPrinter(w).(log := p.log)
  {
    p.maxGraphicsWidth
  }

  /** `send`: the bytes go out after everything sent before, and nothing else changes. */
  function Send(p: Printer, data: seq<U8>): (r: Printer)
    ensures |r.log| == |p.log| + |data|
    ensures r.log[..|p.log|] == p.log && r.log[|p.log|..] == data
    ensures r.maxGraphicsWidth == p.maxGraphicsWidth
  {
    p.(log := p.log + data)
  }

  /** Sending twice is sending the concatenation. */
  lemma SendSend(p: Printer, a: seq<U8>, b: seq<U8>)
    ensures Send(Send(p, a), b) == Send(p, a + b)
  {
    assert p.log + a + b == p.log + (a + b);
  }

  /** `esc`: the ESC byte, then the data. */
  function Esc(p: Printer, data: seq<U8>): (r: Printer)
    ensures |r.log| == |p.log| + 1 + |data|
    ensures r.log[..|p.log|] == p.log && r.log[|p.log|] == 0x1B && r.log[|p.log| + 1..] == data
    ensures r.maxGraphicsWidth == p.maxGraphicsWidth
  {
    Send(p, [0x1B] + data)
  }

  /** `reset`: ESC @, byte for byte the serializer's initialisation prefix. */
  function Reset(p: Printer): (r: Printer)
    ensures r == Send(p, Escp.ESC_RESET)
  {
    Esc(p, [0x40])
  }

  /** DLE EOT 1, the status request. */
  const STATUS_QUERY: seq<U8> := [0x10, 0x04, 0x01]

  /**
   * The send half of `query_status`: the request goes out, and the answer
   * byte (an input here, as the read is I/O) is decoded by `from_byte`.
   */
  function QueryStatus(p: Printer, response: bv8): (r: (Printer, PrinterStatus))
    ensures r.0 == Send(p, STATUS_QUERY)
    ensures IsReady(r.1) <==> response & STATUS_MASK == 0
    ensures ToByte(r.1) == response & STATUS_MASK
  {
    FromByteIgnoresOtherBits(response);
    ReadyByte(response);
    (Send(p, STATUS_QUERY), FromByte(response))
  }
}
