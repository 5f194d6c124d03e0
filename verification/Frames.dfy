/** The FRS2 frame: a 15-byte header and a payload. */
module Frames {
  import opened Bytes

  const MAGIC: seq<byte> := [0x46, 0x52, 0x53, 0x32]
  const FLAG_DATA: byte := 1
  const FLAG_FIN: byte := 2
  const HEADER: nat := 15

  datatype FrameKind = Data | Fin | Ack

  datatype Frame = Frame(kind: FrameKind, number: nat, ack: nat, payload: seq<byte>)

  function Flags(kind: FrameKind): byte {
    match kind
    case Data => FLAG_DATA
    case Fin => FLAG_FIN
    case Ack => 0
  }

  function EncodeFrame(f: Frame): seq<byte> {
    MAGIC + [Flags(f.kind)] + PutU32(f.number) + PutU32(f.ack) + PutU16(|f.payload|) + f.payload
  }

  function ParseFrame(buf: seq<byte>): Option<Frame> {
    if |buf| < HEADER || buf[..4] != MAGIC then None
    else
      var flags := buf[4];
      if flags != 0 && flags != FLAG_DATA && flags != FLAG_FIN then None
      else
        var number := GetU32(buf[5..9]);
        var ack := GetU32(buf[9..13]);
        var len := GetU16(buf[13..15]);
        if |buf| != HEADER + len then None
        else
          var kind := if flags == FLAG_FIN then Fin else if flags == FLAG_DATA then Data else Ack;
          Some(Frame(kind, number, ack, buf[HEADER..]))
  }

  /** The layout, byte by byte: "FRS2", the flags, two 32-bit numbers and the 16-bit length of
      the payload, most significant byte first. */
  lemma FrameLayout(f: Frame)
    requires f.number < 0x1_0000_0000 && f.ack < 0x1_0000_0000 && |f.payload| < 0x1_0000
    ensures EncodeFrame(f)
         == [0x46, 0x52, 0x53, 0x32, match f.kind case Data => 1 case Fin => 2 case Ack => 0,
             f.number / 0x100_0000, f.number / 0x1_0000 % 0x100, f.number / 0x100 % 0x100, f.number % 0x100,
             f.ack / 0x100_0000, f.ack / 0x1_0000 % 0x100, f.ack / 0x100 % 0x100, f.ack % 0x100,
             |f.payload| / 0x100, |f.payload| % 0x100] + f.payload
  {
    Bytes32(f.number);
    Bytes32(f.ack);
    Bytes16(|f.payload|);
  }

  /** The frames the header can express. */
  predicate Fits(f: Frame) {
    f.number < U32 && f.ack < U32 && |f.payload| < U16
  }

  lemma EncodedFields(f: Frame)
    ensures var b := EncodeFrame(f);
      && |b| == HEADER + |f.payload|
      && b[..4] == MAGIC && b[4] == Flags(f.kind)
      && b[5..9] == PutU32(f.number) && b[9..13] == PutU32(f.ack)
      && b[13..15] == PutU16(|f.payload|) && b[HEADER..] == f.payload
  {}

  /** Parsing undoes encoding exactly for the frames that fit; a payload of 64 KiB or more
      wraps its length field and is refused. */
  lemma ParseEncode(f: Frame)
    requires f.number < U32 && f.ack < U32
    ensures ParseFrame(EncodeFrame(f)) == if Fits(f) then Some(f) else None
  {
    EncodedFields(f);
    BytesOfU32(f.number);
    BytesOfU32(f.ack);
    BytesOfU16(|f.payload|);
  }

  /** A datagram that parses is the one encoding of its frame. */
  lemma EncodeParse(buf: seq<byte>)
    requires ParseFrame(buf).Some?
    ensures Fits(ParseFrame(buf).value) && EncodeFrame(ParseFrame(buf).value) == buf
  {
    var f := ParseFrame(buf).value;
    U32OfBytes(buf[5..9]);
    U32OfBytes(buf[9..13]);
    U16OfBytes(buf[13..15]);
    assert buf == buf[..4] + [buf[4]] + buf[5..9] + buf[9..13] + buf[13..15] + buf[HEADER..];
  }
}
