/** The server's frame codec over a connection's inbound buffer, and the example
    client's over a socket with short reads. */
module FrameCodec {
  import opened WireFormat

  /** A connection's inbound buffer. */
  class Conn {
    var inbound: seq<Byte>

    constructor ()
      ensures inbound == []
    {
      inbound := [];
    }

    /** The first n bytes, which stay buffered, unless there are fewer. */
    method Peek(n: nat) returns (short: bool, bytes: seq<Byte>)
      ensures short <==> |inbound| < n
      ensures !short ==> bytes == inbound[..n]
    {
      if |inbound| < n {
        return true, [];
      }
      return false, inbound[..n];
    }

    method Discard(n: nat)
      requires n <= |inbound|
      modifies this
      ensures inbound == old(inbound[n..])
    {
      inbound := inbound[n..];
    }
  }

  /** Writes src over dst from position at on. */
  method Copy(dst: array<Byte>, at: nat, src: seq<Byte>)
    requires at + |src| <= dst.Length
    modifies dst
    ensures dst[..] == old(dst[..at]) + src + old(dst[at + |src|..])
  {
    forall i | 0 <= i < |src| {
      dst[at + i] := src[i];
    }
  }

  datatype Encoded = Encoded(bytes: array<Byte>) | EncodeFailed(error: WireError)

  class Codec {
    const crc: Checksum

    constructor (crc: Checksum)
      ensures this.crc == crc
    {
      this.crc := crc;
    }

    /** The payload buffer: protocol, request id, body. */
    method FillPayload(p: Payload) returns (buf: array<Byte>)
      ensures fresh(buf) && buf[..] == PayloadBytes(p)
    {
      buf := new Byte[1 + REQ_ID_SIZE + |p.body|](_ => 0);
      buf[0] := p.protocol;
      Copy(buf, 1, p.reqId);
      if |p.body| > 0 {
        Copy(buf, 1 + REQ_ID_SIZE, p.body);
      }
    }

    /** Fills a payload buffer, then a frame buffer: the bytes of f's type and payload
        under a fresh header. */
    method Encode(f: Frame) returns (r: Encoded)
      ensures r.Encoded? <==> Encodable(f)
      ensures r.Encoded? ==> fresh(r.bytes) && r.bytes[..] == Wire(Sealed(crc, f))
      ensures r.EncodeFailed? ==> r.error == TooLarge
    {
      var payloadLen := 1 + REQ_ID_SIZE + |f.payload.body|;
      if payloadLen > MAX_PAYLOAD {
        return EncodeFailed(TooLarge);
      }
      var payloadBuf := FillPayload(f.payload);
      var checksum := crc(payloadBuf[..]);
      var frameBuf := new Byte[HEADER_SIZE + payloadLen](_ => 0);
      Copy(frameBuf, 0, Put16(MAGIC));
      frameBuf[2] := VERSION;
      frameBuf[3] := f.header.ftype;
      assert frameBuf[..4] == MAGIC_BYTES + [VERSION, f.header.ftype];
      Copy(frameBuf, 4, Put32(payloadLen));
      Copy(frameBuf, 8, Put32(checksum));
      Copy(frameBuf, HEADER_SIZE, payloadBuf[..]);
      r := Encoded(frameBuf);
    }

    /** Takes one frame from the connection. What is buffered decides the verdict; an
        incomplete or refused frame consumes nothing. */
    method Decode(c: Conn) returns (v: Verdict)
      modifies c
      ensures v == Parse(crc, old(c.inbound))
      ensures v.Got? ==> v.size <= |old(c.inbound)|
      ensures c.inbound == if v.Got? then old(c.inbound)[v.size..] else old(c.inbound)
    {
      var short, head := c.Peek(HEADER_SIZE);
      if short {
        return Incomplete;
      }
      if head[..2] != MAGIC_BYTES {
        return Bad(InvalidMagic);
      }
      if head[2] != VERSION {
        return Bad(VersionUnsupported);
      }
      var ftype := head[3];
      assert head[4..8] == c.inbound[4..8] && head[8..12] == c.inbound[8..12];
      var payloadLen, checksum := Get32(head[4..8]), Get32(head[8..12]);
      if payloadLen > MAX_PAYLOAD {
        return Bad(TooLarge);
      }
      var totalLen := HEADER_SIZE + payloadLen;
      if payloadLen == 0 {
        if checksum != 0 {
          return Bad(ChecksumFailed);
        }
        c.Discard(HEADER_SIZE);
        return Got(Frame(Header(MAGIC, VERSION, ftype, 0, 0), EMPTY_PAYLOAD), HEADER_SIZE);
      }
      var full;
      short, full := c.Peek(totalLen);
      if short {
        return Incomplete;
      }
      var payload := full[HEADER_SIZE..];
      assert payload == c.inbound[HEADER_SIZE..totalLen];
      if checksum != crc(payload) {
        return Bad(ChecksumFailed);
      }
      if |payload| < 1 + REQ_ID_SIZE {
        return Bad(InvalidFrame);
      }
      var reqId, body := payload[1..1 + REQ_ID_SIZE], payload[1 + REQ_ID_SIZE..];
      c.Discard(totalLen);
      var header := Header(MAGIC, VERSION, ftype, payloadLen, checksum);
      return Got(Frame(header, Payload(payload[0], reqId, body)), totalLen);
    }
  }

  // ---- the example client ---------------------------------------------------------

  /** A socket: the bytes it will deliver before it fails, and how many more reads may
      come back empty-handed without an error. */
  class Socket {
    var incoming: seq<Byte>
    var idle: nat

    constructor (incoming: seq<Byte>, idle: nat)
      ensures this.incoming == incoming && this.idle == idle
    {
      this.incoming, this.idle := incoming, idle;
    }

    /** Nothing, while it is idle, or any non-empty part of what comes next, at most max
        bytes; fails at the end. */
    method Read(max: nat) returns (bytes: seq<Byte>, failed: bool)
      requires max > 0
      modifies this
      ensures failed ==> old(incoming) == []
      ensures |bytes| <= max && (!failed ==> bytes != [] || idle < old(idle)) && idle <= old(idle)
      ensures old(incoming) == bytes + incoming
    {
      if idle > 0 {
        var nothing: bool := *;
        if nothing {
          idle := idle - 1;
          return [], false;
        }
      }
      if incoming == [] {
        return [], true;
      }
      var n :| 1 <= n <= max && n <= |incoming|;
      bytes, failed := incoming[..n], false;
      incoming := incoming[n..];
      assert old(incoming) == bytes + incoming;
    }

    /** Short reads until size bytes are in, or the socket fails. */
    method ReadFull(size: nat) returns (bytes: seq<Byte>, failed: bool)
      modifies this
      ensures failed <==> |old(incoming)| < size
      ensures old(incoming) == bytes + incoming
      ensures !failed ==> |bytes| == size
    {
      bytes := [];
      while |bytes| < size
        invariant |bytes| <= size && old(incoming) == bytes + incoming
        decreases size - |bytes|, idle
      {
        var part, err := Read(size - |bytes|);
        if err {
          return bytes, true;
        }
        bytes := bytes + part;
      }
      failed := false;
    }
  }

  class Client {
    const crc: Checksum
    const conn: Socket

    constructor (crc: Checksum, conn: Socket)
      ensures this.crc == crc && this.conn == conn
    {
      this.crc, this.conn := crc, conn;
    }

    /** Reads one frame; Incomplete stands for a socket that fails on the way. However
        the socket cuts its reads, the outcome is ClientParse of the bytes it delivers,
        and a frame takes exactly its own bytes. */
    method ReadFrame() returns (v: Verdict)
      modifies conn
      ensures v == ClientParse(crc, old(conn.incoming))
      ensures v.Got? ==> v.size <= |old(conn.incoming)| && conn.incoming == old(conn.incoming)[v.size..]
    {
      ghost var all := conn.incoming;
      var head, failed := conn.ReadFull(HEADER_SIZE);
      if failed {
        return Incomplete;
      }
      assert head == all[..HEADER_SIZE];
      assert head[..2] == all[..2] && head[4..8] == all[4..8] && head[8..12] == all[8..12];
      var header := Header(Get16(head[..2]), head[2], head[3], Get32(head[4..8]), Get32(head[8..12]));
      if header.magic != MAGIC {
        return Bad(InvalidMagic);
      }
      if header.version != VERSION {
        return Bad(VersionUnsupported);
      }
      if header.payloadLen == 0 {
        return Got(Frame(header, EMPTY_PAYLOAD), HEADER_SIZE);
      }
      if header.payloadLen > MAX_PAYLOAD {
        return Bad(TooLarge);
      }
      var payload;
      payload, failed := conn.ReadFull(header.payloadLen);
      if failed {
        return Incomplete;
      }
      assert all == head + (payload + conn.incoming);
      assert payload == all[HEADER_SIZE..HEADER_SIZE + header.payloadLen];
      if header.checksum != crc(payload) {
        return Bad(ChecksumFailed);
      }
      if |payload| < 1 + REQ_ID_SIZE {
        return Bad(InvalidFrame);
      }
      var body := [];
      if |payload| > 1 + REQ_ID_SIZE {
        body := payload[1 + REQ_ID_SIZE..];
      }
      assert body == payload[PREAMBLE..];
      var frame := Frame(header, Payload(payload[0], payload[1..1 + REQ_ID_SIZE], body));
      return Got(frame, HEADER_SIZE + header.payloadLen);
    }
  }
}
