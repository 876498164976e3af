/** The engine's traffic callback: a bounded decode loop over the inbound buffer that
    wakes itself when a full batch leaves bytes behind, and the streams it drives. */
module Traffic {
  import opened WireFormat
  import opened FrameCodec

  datatype GnetAction = NoAction | Close | Shutdown

  /** What a call meets outside the codec: whether the manager knows the connection,
      what the frame handler answers, and whether waking fails. */
  datatype World = World(known: bool, handler: GnetAction, wakeFails: bool)

  const QUIET := World(true, NoAction, false)

  /** The frames one decode loop takes: up to limit, or up to the first verdict that is
      no frame; bad when that verdict is a refusal. */
  datatype Batch = Batch(frames: seq<Frame>, rest: seq<Byte>, bad: bool)

  function ReadBatch(crc: Checksum, limit: int, b: seq<Byte>): Batch {
    if limit <= 0 then Batch([], b, false)
    else match Parse(crc, b)
      case Incomplete => Batch([], b, false)
      case Bad(_) => Batch([], b, true)
      case Got(f, n) =>
        var later := ReadBatch(crc, limit - 1, b[n..]);
        Batch([f] + later.frames, later.rest, later.bad)
  }

  /** What one call leaves in the buffer, decodes, passes to the handler, answers, and
      whether it wakes the connection. */
  datatype Outcome = Outcome(rest: seq<Byte>, decoded: seq<Frame>, handled: seq<Frame>, action: GnetAction, woke: bool)

  function OnTraffic(crc: Checksum, limit: int, w: World, b: seq<Byte>): Outcome {
    var batch := ReadBatch(crc, limit, b);
    var frs := batch.frames;
    if batch.bad then Outcome(batch.rest, frs, [], Close, false)
    else if frs == [] then Outcome(batch.rest, [], [], NoAction, false)
    else if !w.known then Outcome(batch.rest, frs, [], Close, false)
    else if w.handler != NoAction then Outcome(batch.rest, frs, frs, w.handler, false)
    else if |frs| == limit && |batch.rest| > 0 then
      Outcome(batch.rest, frs, frs, if w.wakeFails then Close else NoAction, !w.wakeFails)
    else Outcome(batch.rest, frs, frs, NoAction, false)
  }

  class Engine {
    const batchRead: int
    const codec: Codec

    constructor (batchRead: int, codec: Codec)
      ensures this.batchRead == batchRead && this.codec == codec
    {
      this.batchRead, this.codec := batchRead, codec;
    }

    /** The decode loop. */
    method DecodeBatch(c: Conn) returns (frs: seq<Frame>, bad: bool)
      modifies c
      ensures Batch(frs, c.inbound, bad) == ReadBatch(codec.crc, batchRead, old(c.inbound))
    {
      frs, bad := [], false;
      ghost var all := c.inbound;
      var i := 0;
      while i < batchRead
        invariant !bad
        invariant ReadBatch(codec.crc, batchRead, all) == Ahead(frs, ReadBatch(codec.crc, batchRead - i, c.inbound))
      {
        BatchStep(codec.crc, batchRead - i, c.inbound, frs);
        var v := codec.Decode(c);
        if v.Incomplete? {
          break;
        }
        if v.Bad? {
          return frs, true;
        }
        frs := frs + [v.frame];
        i := i + 1;
      }
    }

    /** The decode loop and what follows it. */
    method Serve(c: Conn, w: World) returns (handled: seq<Frame>, action: GnetAction, woke: bool)
      modifies c
      ensures var o := OnTraffic(codec.crc, batchRead, w, old(c.inbound));
              c.inbound == o.rest && handled == o.handled && action == o.action && woke == o.woke
    {
      var frs, bad := DecodeBatch(c);
      if bad {
        return [], Close, false;
      }
      if |frs| == 0 {
        return [], NoAction, false;
      }
      if !w.known {
        return [], Close, false;
      }
      if w.handler != NoAction {
        return frs, w.handler, false;
      }
      if |frs| == batchRead && |c.inbound| > 0 {
        if w.wakeFails {
          return frs, Close, false;
        }
        return frs, NoAction, true;
      }
      return frs, NoAction, false;
    }
  }

  /** A batch with frames taken before it. */
  function Ahead(frs: seq<Frame>, batch: Batch): Batch {
    Batch(frs + batch.frames, batch.rest, batch.bad)
  }

  lemma BatchStep(crc: Checksum, limit: int, b: seq<Byte>, frs: seq<Frame>)
    requires limit > 0
    ensures match Parse(crc, b)
            case Got(f, n) =>
              Ahead(frs, ReadBatch(crc, limit, b)) == Ahead(frs + [f], ReadBatch(crc, limit - 1, b[n..]))
            case Incomplete => Ahead(frs, ReadBatch(crc, limit, b)) == Batch(frs, b, false)
            case Bad(_) => Ahead(frs, ReadBatch(crc, limit, b)) == Batch(frs, b, true)
  {
    if Parse(crc, b).Got? {
      var later := ReadBatch(crc, limit - 1, b[Parse(crc, b).size..]);
      assert frs + ([Parse(crc, b).frame] + later.frames) == frs + [Parse(crc, b).frame] + later.frames;
    }
  }

  // ---- reading a stream -----------------------------------------------------------

  /** Decoding from b takes the frames fs and arrives at rest. */
  predicate Reads(crc: Checksum, b: seq<Byte>, fs: seq<Frame>, rest: seq<Byte>) {
    if fs == [] then b == rest
    else
      var v := Parse(crc, b);
      v.Got? && v.frame == fs[0] && Reads(crc, b[v.size..], fs[1..], rest)
  }

  /** Every frame of b up to the first verdict that is none, and what is left there. */
  function AllFrames(crc: Checksum, b: seq<Byte>): (seq<Frame>, seq<Byte>)
    decreases |b|
  {
    match Parse(crc, b)
    case Got(f, n) =>
      var (fs, rest) := AllFrames(crc, b[n..]);
      ([f] + fs, rest)
    case _ => ([], b)
  }

  lemma {:induction false} ReadsExtends(crc: Checksum, b: seq<Byte>, fs: seq<Frame>, rest: seq<Byte>, more: seq<Byte>)
    requires Reads(crc, b, fs, rest)
    ensures Reads(crc, b + more, fs, rest + more)
    decreases |fs|
  {
    if fs != [] {
      VerdictsArePrefixStable(crc, b, more);
      var n := Parse(crc, b).size;
      ReadsExtends(crc, b[n..], fs[1..], rest, more);
      assert (b + more)[n..] == b[n..] + more;
    }
  }

  lemma {:induction false} ReadsOn(crc: Checksum, b: seq<Byte>, fs: seq<Frame>, mid: seq<Byte>, gs: seq<Frame>,
                                   rest: seq<Byte>)
    requires Reads(crc, b, fs, mid) && Reads(crc, mid, gs, rest)
    ensures Reads(crc, b, fs + gs, rest)
    decreases |fs|
  {
    if fs == [] {
      assert fs + gs == gs;
    } else {
      ReadsOn(crc, b[Parse(crc, b).size..], fs[1..], mid, gs, rest);
      assert (fs + gs)[1..] == fs[1..] + gs;
    }
  }

  lemma {:induction false} ReadsAll(crc: Checksum, b: seq<Byte>, fs: seq<Frame>, rest: seq<Byte>)
    requires Reads(crc, b, fs, rest)
    ensures AllFrames(crc, b) == (fs + AllFrames(crc, rest).0, AllFrames(crc, rest).1)
    decreases |fs|
  {
    var tail := AllFrames(crc, rest).0;
    if fs == [] {
      assert fs + tail == tail;
    } else {
      var n := Parse(crc, b).size;
      ReadsAll(crc, b[n..], fs[1..], rest);
      assert AllFrames(crc, b).0 == [fs[0]] + AllFrames(crc, b[n..]).0;
      assert fs + tail == [fs[0]] + (fs[1..] + tail);
    }
  }

  /** The decode loop reads the stream. */
  lemma {:induction false} BatchReads(crc: Checksum, limit: int, b: seq<Byte>)
    ensures var batch := ReadBatch(crc, limit, b);
            && Reads(crc, b, batch.frames, batch.rest)
            && (|batch.frames| <= limit || batch.frames == []) && |batch.rest| + HEADER_SIZE * |batch.frames| <= |b|
            && (batch.bad ==> Parse(crc, batch.rest).Bad? && |batch.frames| < limit)
            && (!batch.bad && |batch.frames| < limit ==> Parse(crc, batch.rest) == Incomplete)
  {
    if limit > 0 && Parse(crc, b).Got? {
      var n := Parse(crc, b).size;
      BatchReads(crc, limit - 1, b[n..]);
      var later := ReadBatch(crc, limit - 1, b[n..]);
      assert ([Parse(crc, b).frame] + later.frames)[1..] == later.frames;
    }
  }
}
