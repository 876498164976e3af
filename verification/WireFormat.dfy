/** The wire format: a twelve byte header, then a checksummed payload. The checksum is
    any function from bytes to 32-bit values. */
module WireFormat {

  type Byte = b: int | 0 <= b < 256
  type U32 = n: int | 0 <= n < 0x1_0000_0000
  type ReqId = s: seq<Byte> | |s| == REQ_ID_SIZE witness seq(REQ_ID_SIZE, _ => 0)
  type Checksum = seq<Byte> -> U32

  const HEADER_SIZE := 12
  const MAX_PAYLOAD := 0x10_0000
  const MAGIC := 0xCAFE
  const MAGIC_BYTES: seq<Byte> := [0xCA, 0xFE]
  const VERSION: Byte := 1
  const REQ_ID_SIZE := 16
  const PREAMBLE := 1 + REQ_ID_SIZE     // protocol and request id

  datatype Header = Header(magic: int, version: Byte, ftype: Byte, payloadLen: U32, checksum: U32)
  datatype Payload = Payload(protocol: Byte, reqId: ReqId, body: seq<Byte>)
  datatype Frame = Frame(header: Header, payload: Payload)

  const EMPTY_PAYLOAD := Payload(0, seq(REQ_ID_SIZE, _ => 0), [])

  datatype WireError = InvalidMagic | VersionUnsupported | TooLarge | ChecksumFailed | InvalidFrame

  /** What a decoder makes of the bytes at hand. */
  datatype Verdict = Got(frame: Frame, size: nat) | Incomplete | Bad(error: WireError)

  // ---- big-endian numbers ------------------------------------------------------

  type U16 = n: int | 0 <= n < 0x1_0000

  function Put16(n: U16): (s: seq<Byte>)
    ensures |s| == 2
  {
    [n / 0x100, n % 0x100]
  }

  function Put32(n: U32): (s: seq<Byte>)
    ensures |s| == 4
  {
    Put16(n / 0x1_0000) + Put16(n % 0x1_0000)
  }

  function Get16(s: seq<Byte>): U16
    requires |s| == 2
  {
    var hi: int, lo: int := s[0], s[1];
    hi * 0x100 + lo
  }

  function Get32(s: seq<Byte>): U32
    requires |s| == 4
  {
    var hi: int, lo: int := Get16(s[..2]), Get16(s[2..]);
    hi * 0x1_0000 + lo
  }

  lemma GetPut32(n: U32)
    ensures Get32(Put32(n)) == n
  {
    assert Put32(n)[..2] == Put16(n / 0x1_0000) && Put32(n)[2..] == Put16(n % 0x1_0000);
  }

  /** The value of four bytes, the first the most significant. */
  function BigEndian(s: seq<Byte>): int
    requires |s| == 4
  {
    (s[0] as int) * 0x100_0000 + (s[1] as int) * 0x1_0000 + (s[2] as int) * 0x100 + s[3] as int
  }

  lemma Get32IsBigEndian(s: seq<Byte>)
    requires |s| == 4
    ensures Get32(s) == BigEndian(s)
  {
    assert s[..2] == [s[0], s[1]] && s[2..] == [s[2], s[3]];
  }

  lemma PutGet16(s: seq<Byte>)
    requires |s| == 2
    ensures Put16(Get16(s)) == s
  {
  }

  lemma PutGet32(s: seq<Byte>)
    requires |s| == 4
    ensures Put32(Get32(s)) == s
  {
    PutGet16(s[..2]);
    PutGet16(s[2..]);
    var hi: int, lo: int := Get16(s[..2]), Get16(s[2..]);
    assert (hi * 0x1_0000 + lo) / 0x1_0000 == hi && (hi * 0x1_0000 + lo) % 0x1_0000 == lo;
  }

  // ---- the server's decoder ------------------------------------------------------

  function Split(p: seq<Byte>): Payload
    requires |p| >= PREAMBLE
  {
    Payload(p[0], p[1..PREAMBLE], p[PREAMBLE..])
  }

  /** Decode on the bytes buffered, before anything is consumed. */
  function Parse(crc: Checksum, b: seq<Byte>): (v: Verdict)
    ensures v.Got? ==> HEADER_SIZE <= v.size <= |b|
  {
    if |b| < HEADER_SIZE then Incomplete
    else if b[..2] != MAGIC_BYTES then Bad(InvalidMagic)
    else if b[2] != VERSION then Bad(VersionUnsupported)
    else
      var len, sum := Get32(b[4..8]), Get32(b[8..12]);
      if len > MAX_PAYLOAD then Bad(TooLarge)
      else if len == 0 then
        if sum != 0 then Bad(ChecksumFailed)
        else Got(Frame(Header(MAGIC, VERSION, b[3], 0, 0), EMPTY_PAYLOAD), HEADER_SIZE)
      else if |b| < HEADER_SIZE + len then Incomplete
      else
        var p := b[HEADER_SIZE..HEADER_SIZE + len];
        if sum != crc(p) then Bad(ChecksumFailed)
        else if len < PREAMBLE then Bad(InvalidFrame)
        else Got(Frame(Header(MAGIC, VERSION, b[3], len, sum), Split(p)), HEADER_SIZE + len)
  }

  // ---- the format, independently of any decoder ------------------------------------

  function PayloadBytes(p: Payload): seq<Byte> {
    [p.protocol] + p.reqId + p.body
  }

  function Wire(f: Frame): seq<Byte> {
    MAGIC_BYTES + [VERSION, f.header.ftype] + Put32(f.header.payloadLen) + Put32(f.header.checksum)
    + if f.header.payloadLen == 0 then [] else PayloadBytes(f.payload)
  }

  /** A frame whose header tells the truth about its payload. A bare header is the one
      frame without a payload. */
  predicate WellFormed(crc: Checksum, f: Frame) {
    && f.header.magic == MAGIC && f.header.version == VERSION
    && if f.header.payloadLen == 0 then f.header.checksum == 0 && f.payload == EMPTY_PAYLOAD
       else f.header.payloadLen == PREAMBLE + |f.payload.body| <= MAX_PAYLOAD
            && f.header.checksum == crc(PayloadBytes(f.payload))
  }

  predicate Encodable(f: Frame) {
    PREAMBLE + |f.payload.body| <= MAX_PAYLOAD
  }

  /** What Encode puts on the wire for f: its type and payload under a fresh header. */
  function Sealed(crc: Checksum, f: Frame): Frame
    requires Encodable(f)
  {
    Frame(Header(MAGIC, VERSION, f.header.ftype, PREAMBLE + |f.payload.body|, crc(PayloadBytes(f.payload))), f.payload)
  }

  lemma SplitPayload(p: Payload)
    ensures |PayloadBytes(p)| == PREAMBLE + |p.body| && Split(PayloadBytes(p)) == p
  {
    var s := PayloadBytes(p);
    assert s[1..PREAMBLE] == p.reqId;
    assert s[PREAMBLE..] == p.body;
  }

  /** The pieces of a well-formed frame's bytes. */
  lemma WireParts(crc: Checksum, f: Frame)
    requires WellFormed(crc, f)
    ensures var w := Wire(f);
            && |w| == HEADER_SIZE + f.header.payloadLen
            && w[..2] == MAGIC_BYTES && w[2] == VERSION && w[3] == f.header.ftype
            && Get32(w[4..8]) == f.header.payloadLen && Get32(w[8..12]) == f.header.checksum
            && w[HEADER_SIZE..] == if f.header.payloadLen == 0 then [] else PayloadBytes(f.payload)
  {
    var w, len, sum := Wire(f), Put32(f.header.payloadLen), Put32(f.header.checksum);
    SplitPayload(f.payload);
    assert w[4..8] == len && w[8..12] == sum;
    GetPut32(f.header.payloadLen);
    GetPut32(f.header.checksum);
  }

  /** What Encode puts on the wire, byte by byte: the magic number, the version, the type,
      length and checksum of the rest in network order, the protocol, the sixteen bytes of
      the request id, and the body; and it can be encoded exactly up to a mebibyte. */
  lemma Layout(crc: Checksum, f: Frame)
    ensures Encodable(f) <==> 17 + |f.payload.body| <= 1048576
    ensures Encodable(f) ==>
              var w := Wire(Sealed(crc, f));
              && |w| == 29 + |f.payload.body|
              && w[0] == 0xCA && w[1] == 0xFE && w[2] == 1 && w[3] == f.header.ftype
              && BigEndian(w[4..8]) == 17 + |f.payload.body| && BigEndian(w[8..12]) == crc(w[12..])
              && w[12] == f.payload.protocol && w[13..29] == f.payload.reqId && w[29..] == f.payload.body
  {
    if Encodable(f) {
      var g := Sealed(crc, f);
      var w := Wire(g);
      WireParts(crc, g);
      SplitPayload(f.payload);
      assert w[..2][0] == 0xCA && w[..2][1] == 0xFE;
      Get32IsBigEndian(w[4..8]);
      Get32IsBigEndian(w[8..12]);
      var p := PayloadBytes(f.payload);
      assert w[12..] == p && w[12] == p[0];
      assert w[13..29] == p[1..17] && w[29..] == p[17..];
    }
  }

  /** The decoder is deaf to what follows the bytes it has judged. */
  lemma VerdictsArePrefixStable(crc: Checksum, b: seq<Byte>, more: seq<Byte>)
    requires Parse(crc, b) != Incomplete
    ensures Parse(crc, b + more) == Parse(crc, b)
  {
    var all := b + more;
    assert all[..2] == b[..2] && all[4..8] == b[4..8] && all[8..12] == b[8..12];
    var len := Get32(b[4..8]);
    if HEADER_SIZE + len <= |b| {
      assert all[HEADER_SIZE..HEADER_SIZE + len] == b[HEADER_SIZE..HEADER_SIZE + len];
    }
  }

  lemma WireParses(crc: Checksum, f: Frame)
    requires WellFormed(crc, f)
    ensures Parse(crc, Wire(f)) == Got(f, |Wire(f)|)
  {
    var w := Wire(f);
    WireParts(crc, f);
    SplitPayload(f.payload);
    assert w[HEADER_SIZE..HEADER_SIZE + f.header.payloadLen] == w[HEADER_SIZE..];
  }

  lemma ParsedIsWire(crc: Checksum, b: seq<Byte>)
    requires Parse(crc, b).Got?
    ensures var v := Parse(crc, b);
            WellFormed(crc, v.frame) && v.size <= |b| && b[..v.size] == Wire(v.frame)
  {
    var f, n := Parse(crc, b).frame, Parse(crc, b).size;
    var len := Get32(b[4..8]);
    PutGet32(b[4..8]);
    PutGet32(b[8..12]);
    assert b[..HEADER_SIZE] == b[..2] + [b[2], b[3]] + b[4..8] + b[8..12];
    if len == 0 {
      assert Put32(0) == b[8..12];
    } else {
      var p := b[HEADER_SIZE..n];
      assert p == PayloadBytes(Split(p));
      assert b[..n] == b[..HEADER_SIZE] + p;
    }
  }

  /** The decoder accepts exactly the well-formed frames: it returns f and consumes n
      bytes just when the buffer starts with f's n bytes. */
  lemma DecodesExactlyTheFormat(crc: Checksum, b: seq<Byte>, f: Frame, n: nat)
    ensures Parse(crc, b) == Got(f, n) <==>
            WellFormed(crc, f) && n == |Wire(f)| && n <= |b| && b[..n] == Wire(f)
  {
    if Parse(crc, b) == Got(f, n) {
      ParsedIsWire(crc, b);
    }
    if WellFormed(crc, f) && n == |Wire(f)| && n <= |b| && b[..n] == Wire(f) {
      WireDecodes(crc, f, b, b[n..]);
    }
  }

  lemma WireDecodes(crc: Checksum, f: Frame, b: seq<Byte>, rest: seq<Byte>)
    requires WellFormed(crc, f) && b == Wire(f) + rest
    ensures Parse(crc, b) == Got(f, |Wire(f)|)
  {
    WireParses(crc, f);
    VerdictsArePrefixStable(crc, Wire(f), rest);
  }

  /** Twelve bytes that start a frame of this version. */
  predicate Starts(b: seq<Byte>) {
    |b| >= 12 && b[0] == 0xCA && b[1] == 0xFE && b[2] == 1
  }

  /** When each refusal is given, and when the decoder waits, by the bytes: the magic number
      before the version, the length before the checksum, the checksum before the shape of
      the payload. */
  lemma RefusesExactlyWhen(crc: Checksum, b: seq<Byte>)
    ensures Parse(crc, b) == Bad(InvalidMagic) <==> |b| >= 12 && !(b[0] == 0xCA && b[1] == 0xFE)
    ensures Parse(crc, b) == Bad(VersionUnsupported) <==> |b| >= 12 && b[0] == 0xCA && b[1] == 0xFE && b[2] != 1
    ensures Parse(crc, b) == Bad(TooLarge) <==> Starts(b) && BigEndian(b[4..8]) > 1048576
    ensures Parse(crc, b) == Bad(ChecksumFailed) <==>
              && Starts(b)
              && var n, sum := BigEndian(b[4..8]), BigEndian(b[8..12]);
                 if n == 0 then sum != 0 else n <= 1048576 && 12 + n <= |b| && sum != crc(b[12..12 + n])
    ensures Parse(crc, b) == Bad(InvalidFrame) <==>
              && Starts(b)
              && var n, sum := BigEndian(b[4..8]), BigEndian(b[8..12]);
                 0 < n < 17 && 12 + n <= |b| && sum == crc(b[12..12 + n])
    ensures Parse(crc, b) == Incomplete <==>
              || |b| < 12
              || (Starts(b) && 0 < BigEndian(b[4..8]) <= 1048576 && |b| < 12 + BigEndian(b[4..8]))
  {
    if |b| >= 12 {
      assert b[..2] == [b[0], b[1]];
      Get32IsBigEndian(b[4..8]);
      Get32IsBigEndian(b[8..12]);
    }
  }

  /** A decoder never waits with a largest frame's bytes at hand. */
  lemma WaitingIsBounded(crc: Checksum, b: seq<Byte>)
    requires Parse(crc, b) == Incomplete
    ensures |b| < HEADER_SIZE + MAX_PAYLOAD
  {
  }

  /** Round trip: what Encode makes of f decodes, whatever follows it, to f's type and
      payload, consuming exactly the encoding; and so a decoded frame with a payload
      encodes to the very bytes it came from. */
  lemma RoundTrip(crc: Checksum, f: Frame, rest: seq<Byte>)
    requires Encodable(f)
    ensures Parse(crc, Wire(Sealed(crc, f)) + rest) == Got(Sealed(crc, f), HEADER_SIZE + PREAMBLE + |f.payload.body|)
  {
    var g := Sealed(crc, f);
    WireParts(crc, g);
    WireParses(crc, g);
    VerdictsArePrefixStable(crc, Wire(g), rest);
  }

  lemma EncodeUndoesDecode(crc: Checksum, b: seq<Byte>)
    requires Parse(crc, b).Got? && Parse(crc, b).frame.header.payloadLen > 0
    ensures var v := Parse(crc, b);
            Encodable(v.frame) && Sealed(crc, v.frame) == v.frame && Wire(Sealed(crc, v.frame)) == b[..v.size]
  {
    ParsedIsWire(crc, b);
  }

  /** No frame's bytes are a proper prefix of another's. */
  lemma EncodingsArePrefixFree(crc: Checksum, f: Frame, g: Frame)
    requires WellFormed(crc, f) && WellFormed(crc, g) && Wire(f) <= Wire(g)
    ensures f == g
  {
    WireParses(crc, f);
    WireParses(crc, g);
    assert Wire(g) == Wire(f) + Wire(g)[|Wire(f)|..];
    VerdictsArePrefixStable(crc, Wire(f), Wire(g)[|Wire(f)|..]);
  }

  // ---- the example client's decoder ---------------------------------------------------

  /** What readFrame makes of the bytes the socket will deliver before it fails. */
  function ClientParse(crc: Checksum, b: seq<Byte>): Verdict {
    if |b| < HEADER_SIZE then Incomplete
    else if Get16(b[..2]) != MAGIC then Bad(InvalidMagic)
    else if b[2] != VERSION then Bad(VersionUnsupported)
    else
      var len, sum := Get32(b[4..8]), Get32(b[8..12]);
      var header := Header(Get16(b[..2]), b[2], b[3], len, sum);
      if len == 0 then Got(Frame(header, EMPTY_PAYLOAD), HEADER_SIZE)
      else if len > MAX_PAYLOAD then Bad(TooLarge)
      else if |b| < HEADER_SIZE + len then Incomplete
      else
        var p := b[HEADER_SIZE..HEADER_SIZE + len];
        if sum != crc(p) then Bad(ChecksumFailed)
        else if |p| < PREAMBLE then Bad(InvalidFrame)
        else Got(Frame(header, Split(p)), HEADER_SIZE + len)
  }

  /** A bare header that carries a checksum. */
  predicate BareWithChecksum(b: seq<Byte>) {
    && |b| >= HEADER_SIZE && b[..2] == MAGIC_BYTES && b[2] == VERSION
    && Get32(b[4..8]) == 0 && Get32(b[8..12]) != 0
  }

  /** Client and server give the same verdict, the same fields and the same size on
      every byte string, except on a bare header with a checksum, which the client
      accepts and the server refuses. */
  lemma ImplementationsAgree(crc: Checksum, b: seq<Byte>)
    ensures ClientParse(crc, b) == Parse(crc, b) <==> !BareWithChecksum(b)
    ensures BareWithChecksum(b) ==> ClientParse(crc, b).Got? && Parse(crc, b) == Bad(ChecksumFailed)
  {
    if |b| >= HEADER_SIZE {
      PutGet16(b[..2]);
      assert Put16(MAGIC) == MAGIC_BYTES == [0xCA, 0xFE];
    }
  }

  /** Each side decodes what the other encodes to the same fields. */
  lemma Interoperate(crc: Checksum, f: Frame, rest: seq<Byte>)
    requires Encodable(f)
    ensures ClientParse(crc, Wire(Sealed(crc, f)) + rest) == Parse(crc, Wire(Sealed(crc, f)) + rest)
         == Got(Sealed(crc, f), |Wire(Sealed(crc, f))|)
  {
    var b := Wire(Sealed(crc, f)) + rest;
    RoundTrip(crc, f, rest);
    WireParts(crc, Sealed(crc, f));
    assert b[4..8] == Wire(Sealed(crc, f))[4..8];
    ImplementationsAgree(crc, b);
  }
}
