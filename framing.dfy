/** Frame extraction in the session's Read, after the PDU format of section 3.2
    of the SMPP v3.4 specification: a 4-byte big-endian command_length that
    counts the whole PDU including itself, then command_length - 4 bytes of
    header and body. Each of the two transport reads is given as what the
    transport delivers to that call. */
module Framing {
  import opened Wrappers
  import opened Uint32
  import opened Pdus

  /** What one read call of the transport yields: the bytes it has for the
      caller, or an error. */
  datatype Delivery = Delivered(bytes: seq<byte>) | Failed(cause: string)

  datatype ReadError =
    | Transport(cause: string)   // a read call failed
    | TooLarge                   // the body length exceeds the maximum PDU size
    | LengthMismatch             // the body read returned a different count
    | Malformed(cause: string)   // the parser rejected the frame

  function Zeros(n: nat): (z: seq<byte>)
    ensures |z| == n && forall i :: 0 <= i < n ==> z[i] == 0
  {
    seq(n, _ => 0)
  }

  /** The bytes one read call copies into a buffer of `size` bytes. */
  function Fill(size: nat, available: seq<byte>): (data: seq<byte>)
    ensures |data| <= size && |data| <= |available| && data == available[..|data|]
    ensures |data| == size || data == available
  {
    if |available| <= size then available else available[..size]
  }

  /** The zeroed 4-byte length buffer after the first read: the count that read
      returns is not checked, so positions it did not fill stay zero. */
  function PrefixBuffer(available: seq<byte>): (l: seq<byte>)
    ensures |l| == 4
    ensures |available| >= 4 ==> l == available[..4]
    ensures |available| < 4 ==> l == available + Zeros(4 - |available|)
  {
    var got := Fill(4, available);
    got + Zeros(4 - |got|)
  }

  /** The declared body length: the prefix value less 4, in unsigned 32-bit
      arithmetic. */
  function BodyLength(l: seq<byte>): (n: uint32)
    requires |l| == 4
    ensures (n as int + 4) % TWO_TO_32 == UnpackUint32(l) as int
    ensures UnpackUint32(l) >= 4 ==> n as int + 4 == UnpackUint32(l) as int
  {
    Sub(UnpackUint32(l), 4)
  }

  function FromParser(r: Result<Pdu, string>): Result<Pdu, ReadError>
  {
    match r
    case Ok(p) => Ok(p)
    case Err(e) => Err(Malformed(e))
  }

  /** One Read: the length prefix, the size check, the body read, the count
      check, and the parse of prefix and body together. */
  function ReadFrame(first: Delivery, second: Delivery, maxPduSize: uint32, parse: Parser)
    : (r: Result<Pdu, ReadError>)
    ensures r.Ok? ==> first.Delivered? && second.Delivered?
    ensures r.Ok? ==> BodyLength(PrefixBuffer(first.bytes)) <= maxPduSize
    ensures r.Ok? ==> |second.bytes| >= BodyLength(PrefixBuffer(first.bytes)) as int
  {
    match first
    case Failed(e) => Err(Transport(e))
    case Delivered(available) =>
      var l := PrefixBuffer(available);
      var n := BodyLength(l);
      if n > maxPduSize then Err(TooLarge)
      else
        match second
        case Failed(e) => Err(Transport(e))
        case Delivered(more) =>
          var data := Fill(n as int, more);
          if |data| != n as int then Err(LengthMismatch)
          else FromParser(parse(l + data))
  }

  /** The size check comes before the body read: an oversized length is
      rejected whatever the second read would deliver. */
  lemma ReadRejectsOversized(first: Delivery, second: Delivery, other: Delivery, maxPduSize: uint32,
                             parse: Parser)
    ensures ReadFrame(first, second, maxPduSize, parse) == Err(TooLarge) <==>
      first.Delivered? && BodyLength(PrefixBuffer(first.bytes)) > maxPduSize
    ensures ReadFrame(first, second, maxPduSize, parse) == Err(TooLarge) ==>
      ReadFrame(first, other, maxPduSize, parse) == Err(TooLarge)
  {
  }

  /** A prefix value below 4 wraps the subtraction around to at least
      2^32 - 4, which every maximum below that rejects. */
  lemma ShortLengthWraps(first: Delivery, second: Delivery, maxPduSize: uint32, parse: Parser)
    requires first.Delivered? && UnpackUint32(PrefixBuffer(first.bytes)) < 4
    ensures BodyLength(PrefixBuffer(first.bytes)) as int ==
      UnpackUint32(PrefixBuffer(first.bytes)) as int + TWO_TO_32 - 4
    ensures maxPduSize as int < TWO_TO_32 - 4 ==>
      ReadFrame(first, second, maxPduSize, parse) == Err(TooLarge)
  {
  }

  /** A body read that returns fewer bytes than declared is an error, never a
      short frame handed on. */
  lemma ShortBodyRejected(first: Delivery, second: Delivery, maxPduSize: uint32, parse: Parser)
    requires first.Delivered? && second.Delivered?
    requires BodyLength(PrefixBuffer(first.bytes)) <= maxPduSize
    requires |second.bytes| < BodyLength(PrefixBuffer(first.bytes)) as int
    ensures ReadFrame(first, second, maxPduSize, parse) == Err(LengthMismatch)
  {
  }

  /** The parser is reached exactly when both reads succeed, the size check
      passes and the body read fills the body; it then gets the 4-byte
      prefix followed by the body, a buffer whose length is the prefix value
      modulo 2^32 (exactly the prefix value when the maximum is below
      2^32 - 4). */
  lemma ReadHandsFrameToParser(first: Delivery, second: Delivery, maxPduSize: uint32, parse: Parser)
    ensures (ReadFrame(first, second, maxPduSize, parse).Ok? ||
             ReadFrame(first, second, maxPduSize, parse).error.Malformed?) <==>
      first.Delivered? && second.Delivered? &&
      BodyLength(PrefixBuffer(first.bytes)) <= maxPduSize &&
      |second.bytes| >= BodyLength(PrefixBuffer(first.bytes)) as int
    ensures (first.Delivered? && second.Delivered? &&
             BodyLength(PrefixBuffer(first.bytes)) <= maxPduSize &&
             |second.bytes| >= BodyLength(PrefixBuffer(first.bytes)) as int) ==>
        var l := PrefixBuffer(first.bytes);
        var pkt := l + second.bytes[..BodyLength(l)];
        ReadFrame(first, second, maxPduSize, parse) == FromParser(parse(pkt)) &&
        pkt[..4] == l &&
        |pkt| % TWO_TO_32 == UnpackUint32(l) as int &&
        (maxPduSize as int < TWO_TO_32 - 4 ==> |pkt| == UnpackUint32(l) as int)
  {
  }

  /** The frame for a PDU whose header and body are `body`: the total length
      in four big-endian bytes, then `body`. */
  function EncodeFrame(body: seq<byte>): (frame: seq<byte>)
    requires |body| + 4 < TWO_TO_32
    ensures |frame| == |body| + 4 && frame[4..] == body
    ensures UnpackUint32(frame[..4]) as int == |frame|
  {
    UnpackPack((|body| + 4) as uint32);
    PackUint32((|body| + 4) as uint32) + body
  }

  /** Reading from a byte stream: each read call is given everything not yet
      consumed. */
  function ReadStream(stream: seq<byte>, maxPduSize: uint32, parse: Parser): Result<Pdu, ReadError>
  {
    var rest := if |stream| <= 4 then [] else stream[4..];
    ReadFrame(Delivered(stream), Delivered(rest), maxPduSize, parse)
  }

  /** A frame within the size limit, followed by anything, reads back as the
      parse of exactly that frame. */
  lemma ReadStreamRoundTrip(body: seq<byte>, following: seq<byte>, maxPduSize: uint32, parse: Parser)
    requires |body| + 4 < TWO_TO_32
    requires |body| <= maxPduSize as int
    ensures ReadStream(EncodeFrame(body) + following, maxPduSize, parse) == FromParser(parse(EncodeFrame(body)))
  {
    var frame := EncodeFrame(body);
    var stream := frame + following;
    assert stream[..4] == frame[..4];
    assert PrefixBuffer(stream) == frame[..4];
    assert BodyLength(frame[..4]) as int == |body|;
    assert stream[4..] == body + following;
    assert (body + following)[..|body|] == body;
    assert frame[..4] + body == frame;
  }
}
