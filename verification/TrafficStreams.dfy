/** Whole connections: bytes arriving in any pieces, wakes served at any time, and what
    of it all reaches the frame handler. */
module TrafficStreams {
  import opened WireFormat
  import opened Traffic

  /** A connection so far: taken are the bytes received while open, late those after
      it was closed. */
  datatype Stream = Stream(
    buf: seq<Byte>,
    taken: seq<Byte>,
    late: seq<Byte>,
    decoded: seq<Frame>,
    handled: seq<Frame>,
    wakes: nat,          // wakes asked for and not yet served
    closed: bool)

  datatype Event = Deliver(chunk: seq<Byte>, w: World) | WakeUp(w: World)

  const FRESH := Stream([], [], [], [], [], 0, false)

  function Call(crc: Checksum, limit: int, s: Stream, w: World): Stream {
    var o := OnTraffic(crc, limit, w, s.buf);
    s.(buf := o.rest, decoded := s.decoded + o.decoded, handled := s.handled + o.handled,
       wakes := s.wakes + (if o.woke then 1 else 0), closed := o.action != NoAction)
  }

  function Do(crc: Checksum, limit: int, s: Stream, e: Event): Stream {
    match e
    case Deliver(chunk, w) =>
      if s.closed then s.(late := s.late + chunk)
      else Call(crc, limit, s.(buf := s.buf + chunk, taken := s.taken + chunk), w)
    case WakeUp(w) =>
      if s.closed || s.wakes == 0 then s else Call(crc, limit, s.(wakes := s.wakes - 1), w)
  }

  function Run(crc: Checksum, limit: int, events: seq<Event>): Stream {
    if events == [] then FRESH
    else Do(crc, limit, Run(crc, limit, events[..|events| - 1]), events[|events| - 1])
  }

  /** Every byte sent, in order. */
  function Sent(events: seq<Event>): seq<Byte> {
    if events == [] then []
    else
      var e := events[|events| - 1];
      Sent(events[..|events| - 1]) + if e.Deliver? then e.chunk else []
  }

  /** The manager knows the connection, the handler lets it go on, waking works. */
  predicate Quiet(events: seq<Event>) {
    forall e :: e in events ==> e.w == QUIET
  }

  /** Nothing is left to do for the bytes delivered. */
  predicate Settled(s: Stream) {
    s.closed || s.wakes == 0
  }

  // ---- the invariant ------------------------------------------------------------------

  ghost predicate Inv(crc: Checksum, limit: int, s: Stream) {
    && Reads(crc, s.taken, s.decoded, s.buf)
    && s.handled <= s.decoded
    && (!s.closed ==> s.handled == s.decoded && s.late == [])
    && (!s.closed && s.wakes == 0 ==> Parse(crc, s.buf) == Incomplete)
  }

  /** Closed in quiet surroundings: by a refusal, losing less than a batch. */
  ghost predicate Refused(crc: Checksum, limit: int, s: Stream) {
    Parse(crc, s.buf).Bad? && |s.decoded| < |s.handled| + limit
  }

  lemma CallKeeps(crc: Checksum, limit: int, s: Stream, w: World)
    requires limit >= 1 && !s.closed
    requires Reads(crc, s.taken, s.decoded, s.buf) && s.handled == s.decoded && s.late == []
    ensures Inv(crc, limit, Call(crc, limit, s, w))
    ensures w == QUIET && Call(crc, limit, s, w).closed ==> Refused(crc, limit, Call(crc, limit, s, w))
  {
    var batch := ReadBatch(crc, limit, s.buf);
    BatchReads(crc, limit, s.buf);
    ReadsOn(crc, s.taken, s.decoded, s.buf, batch.frames, batch.rest);
    assert s.decoded + [] == s.decoded;
  }

  lemma StepKeeps(crc: Checksum, limit: int, s: Stream, e: Event)
    requires limit >= 1 && Inv(crc, limit, s)
    ensures Inv(crc, limit, Do(crc, limit, s, e))
    ensures (s.closed ==> Refused(crc, limit, s)) && e.w == QUIET && Do(crc, limit, s, e).closed ==>
              Refused(crc, limit, Do(crc, limit, s, e))
  {
    if !s.closed {
      match e
      case Deliver(chunk, w) =>
        ReadsExtends(crc, s.taken, s.decoded, s.buf, chunk);
        CallKeeps(crc, limit, s.(buf := s.buf + chunk, taken := s.taken + chunk), w);
      case WakeUp(w) =>
        if s.wakes > 0 {
          CallKeeps(crc, limit, s.(wakes := s.wakes - 1), w);
        }
    }
  }

  lemma StepTakes(crc: Checksum, limit: int, s: Stream, e: Event)
    requires !s.closed ==> s.late == []
    ensures var s' := Do(crc, limit, s, e);
            s'.taken + s'.late == s.taken + s.late + if e.Deliver? then e.chunk else []
  {
  }

  lemma {:induction false} RunKeeps(crc: Checksum, limit: int, events: seq<Event>)
    requires limit >= 1
    ensures var s := Run(crc, limit, events);
            && Inv(crc, limit, s) && s.taken + s.late == Sent(events)
            && (Quiet(events) && s.closed ==> Refused(crc, limit, s))
  {
    if events != [] {
      var n := |events| - 1;
      RunKeeps(crc, limit, events[..n]);
      var s := Run(crc, limit, events[..n]);
      StepKeeps(crc, limit, s, events[n]);
      StepTakes(crc, limit, s, events[n]);
    }
  }

  // ---- what is decoded does not depend on the pieces -------------------------------------

  lemma {:induction false} RunReads(crc: Checksum, limit: int, events: seq<Event>)
    requires limit >= 1
    ensures var s := Run(crc, limit, events);
            var (fs, rest) := AllFrames(crc, s.buf + s.late);
            AllFrames(crc, Sent(events)) == (s.decoded + fs, rest)
  {
    RunKeeps(crc, limit, events);
    var s := Run(crc, limit, events);
    ReadsThenAll(crc, s.taken, s.decoded, s.buf, s.late);
  }

  lemma ReadsThenAll(crc: Checksum, b: seq<Byte>, fs: seq<Frame>, buf: seq<Byte>, more: seq<Byte>)
    requires Reads(crc, b, fs, buf)
    ensures AllFrames(crc, b + more) == (fs + AllFrames(crc, buf + more).0, AllFrames(crc, buf + more).1)
  {
    ReadsExtends(crc, b, fs, buf, more);
    ReadsAll(crc, b + more, fs, buf + more);
  }

  lemma {:induction false} NothingAhead(crc: Checksum, limit: int, events: seq<Event>)
    requires limit >= 1 && Settled(Run(crc, limit, events))
    requires Run(crc, limit, events).closed ==> Quiet(events)
    ensures var s := Run(crc, limit, events);
            AllFrames(crc, s.buf + s.late) == ([], s.buf + s.late)
  {
    RunKeeps(crc, limit, events);
    var s := Run(crc, limit, events);
    if s.closed {
      VerdictsArePrefixStable(crc, s.buf, s.late);
    } else {
      assert s.buf + s.late == s.buf;
    }
  }

  /** Always, whatever the surroundings: what was decoded is a beginning of the frames
      in the bytes sent, and what was handled a beginning of what was decoded. */
  lemma {:induction false} DecodedInOrder(crc: Checksum, limit: int, events: seq<Event>)
    requires limit >= 1
    ensures var s := Run(crc, limit, events);
            s.handled <= s.decoded <= AllFrames(crc, Sent(events)).0
  {
    RunReads(crc, limit, events);
    RunKeeps(crc, limit, events);
  }

  /** Once settled, a connection that was not closed by its surroundings has decoded
      exactly the frames of the bytes sent up to the first bad one: cutting the bytes,
      and when wakes are served, make no difference, malformed bytes included. Less
      than one batch of them, those before a bad frame, misses the handler. */
  lemma {:induction false} DecodedFramesIgnoreChunking(crc: Checksum, limit: int, events: seq<Event>)
    requires limit >= 1 && Settled(Run(crc, limit, events))
    requires Run(crc, limit, events).closed ==> Quiet(events)
    ensures var s := Run(crc, limit, events);
            && s.decoded == AllFrames(crc, Sent(events)).0
            && s.buf + s.late == AllFrames(crc, Sent(events)).1
            && s.handled <= s.decoded
            && |s.decoded| - |s.handled| < (if s.closed then limit else 1)
            && (s.closed <==> Parse(crc, AllFrames(crc, Sent(events)).1).Bad?)
  {
    RunReads(crc, limit, events);
    NothingAhead(crc, limit, events);
    RunKeeps(crc, limit, events);
    var s := Run(crc, limit, events);
    assert s.decoded + [] == s.decoded;
    if s.closed {
      VerdictsArePrefixStable(crc, s.buf, s.late);
    } else {
      assert s.buf + s.late == s.buf;
    }
  }

  /** An open connection with no wake outstanding holds no complete frame, and less
      than one largest frame in all. */
  lemma {:induction false} SettledHoldsNoFrame(crc: Checksum, limit: int, events: seq<Event>)
    requires limit >= 1 && !Run(crc, limit, events).closed && Run(crc, limit, events).wakes == 0
    ensures var s := Run(crc, limit, events);
            Parse(crc, s.buf) == Incomplete && |s.buf| < HEADER_SIZE + MAX_PAYLOAD
  {
    RunKeeps(crc, limit, events);
    WaitingIsBounded(crc, Run(crc, limit, events).buf);
  }

  // ---- round trip ---------------------------------------------------------------------------

  predicate AllEncodable(fs: seq<Frame>) {
    forall f :: f in fs ==> Encodable(f)
  }

  function EncodeAll(crc: Checksum, fs: seq<Frame>): seq<Byte>
    requires AllEncodable(fs)
  {
    if fs == [] then [] else Wire(Sealed(crc, fs[0])) + EncodeAll(crc, fs[1..])
  }

  function SealAll(crc: Checksum, fs: seq<Frame>): (r: seq<Frame>)
    requires AllEncodable(fs)
    ensures |r| == |fs| && forall i :: 0 <= i < |fs| ==> r[i] == Sealed(crc, fs[i])
  {
    seq(|fs|, i requires 0 <= i < |fs| => assert fs[i] in fs; Sealed(crc, fs[i]))
  }

  lemma {:induction false} EncodedFrames(crc: Checksum, fs: seq<Frame>)
    requires AllEncodable(fs)
    ensures AllFrames(crc, EncodeAll(crc, fs)) == (SealAll(crc, fs), [])
  {
    if fs != [] {
      var b, rest := EncodeAll(crc, fs), EncodeAll(crc, fs[1..]);
      RoundTrip(crc, fs[0], rest);
      WireParts(crc, Sealed(crc, fs[0]));
      assert b[|Wire(Sealed(crc, fs[0]))|..] == rest;
      EncodedFrames(crc, fs[1..]);
      assert SealAll(crc, fs) == [Sealed(crc, fs[0])] + SealAll(crc, fs[1..]);
    }
  }

  /** Frames encoded one after the other, cut into any pieces and read by the batch
      loop with wakes at any time: once settled, the handler has received exactly the
      original types, protocols, request ids and bodies, in order, the connection is
      open and nothing is left. */
  lemma {:induction false} StreamingRoundTrip(crc: Checksum, limit: int, events: seq<Event>, fs: seq<Frame>)
    requires limit >= 1 && AllEncodable(fs) && Quiet(events)
    requires Sent(events) == EncodeAll(crc, fs) && Settled(Run(crc, limit, events))
    ensures var s := Run(crc, limit, events);
            && !s.closed && s.buf == [] && |s.handled| == |fs|
            && forall i :: 0 <= i < |fs| ==>
                 && s.handled[i].header.ftype == fs[i].header.ftype
                 && s.handled[i].payload == fs[i].payload
  {
    DecodedFramesIgnoreChunking(crc, limit, events);
    EncodedFrames(crc, fs);
    RunKeeps(crc, limit, events);
  }

  /** And before that, while only a beginning of those bytes has been sent, the
      connection stays open and the handler has received a beginning of the frames. */
  lemma {:induction false} NoPrefixIsRefused(crc: Checksum, limit: int, events: seq<Event>, fs: seq<Frame>)
    requires limit >= 1 && AllEncodable(fs) && Quiet(events) && Sent(events) <= EncodeAll(crc, fs)
    ensures var s := Run(crc, limit, events);
            !s.closed && s.handled <= SealAll(crc, fs)
  {
    RunKeeps(crc, limit, events);
    EncodedFrames(crc, fs);
    PrefixOfGood(crc, Run(crc, limit, events), EncodeAll(crc, fs));
  }

  lemma PrefixOfGood(crc: Checksum, s: Stream, all: seq<Byte>)
    requires Reads(crc, s.taken, s.decoded, s.buf) && s.taken + s.late <= all
    ensures AllFrames(crc, all).1 == [] ==> s.decoded <= AllFrames(crc, all).0 && !Parse(crc, s.buf).Bad?
  {
    assert s.taken <= s.taken + s.late;
    var more := all[|s.taken|..];
    assert s.taken + more == all;
    ReadsThenAll(crc, s.taken, s.decoded, s.buf, more);
    if AllFrames(crc, all).1 == [] {
      NothingLeftIsNotBad(crc, s.buf, more);
    }
  }

  lemma NothingLeftIsNotBad(crc: Checksum, b: seq<Byte>, more: seq<Byte>)
    requires AllFrames(crc, b + more).1 == []
    ensures !Parse(crc, b).Bad?
  {
    if Parse(crc, b).Bad? {
      VerdictsArePrefixStable(crc, b, more);
    }
  }

  // ---- wakes run out ------------------------------------------------------------------------

  /** n wakes served one after the other. */
  function Wakes(crc: Checksum, limit: int, s: Stream, n: nat): Stream
    decreases n
  {
    if n == 0 then s else Wakes(crc, limit, Do(crc, limit, s, WakeUp(QUIET)), n - 1)
  }

  /** Serving wakes settles the connection: each one either takes a whole batch from
      the buffer or is not renewed, so at most the outstanding ones and one more per
      smallest frame buffered are served. */
  lemma {:induction false} WakesRunOut(crc: Checksum, limit: int, s: Stream) returns (n: nat)
    requires limit >= 1
    ensures Settled(Wakes(crc, limit, s, n)) && HEADER_SIZE * n <= HEADER_SIZE * s.wakes + |s.buf|
    decreases HEADER_SIZE * s.wakes + |s.buf|
  {
    n := 0;
    if !Settled(s) {
      var s' := Do(crc, limit, s, WakeUp(QUIET));
      BatchReads(crc, limit, s.buf);
      if s'.wakes == s.wakes {
        WokeTookFrame(crc, limit, s);
      }
      var m := WakesRunOut(crc, limit, s');
      n := m + 1;
    }
  }

  lemma WokeTookFrame(crc: Checksum, limit: int, s: Stream)
    requires !Settled(s) && Do(crc, limit, s, WakeUp(QUIET)).wakes == s.wakes
    ensures |Do(crc, limit, s, WakeUp(QUIET)).buf| + HEADER_SIZE <= |s.buf|
  {
    BatchReads(crc, limit, s.buf);
  }

  // ---- what is handled does depend on the pieces ----------------------------------------------

  const BARE: seq<Byte> := [0xCA, 0xFE, 1, 5, 0, 0, 0, 0, 0, 0, 0, 0]   // a bare Send header
  const BROKEN: seq<Byte> := [0, 0, 0, 0, 0, 0, 0, 0, 0, 0, 0, 0]       // no magic number
  const BARE_FRAME := Frame(Header(MAGIC, VERSION, 5, 0, 0), EMPTY_PAYLOAD)

  /** Two settled quiet runs over the same bytes hand over the same frames. */
  ghost predicate SameHandled(crc: Checksum, limit: int, one: seq<Event>, other: seq<Event>) {
    Quiet(one) && Quiet(other) && Sent(one) == Sent(other)
    && Settled(Run(crc, limit, one)) && Settled(Run(crc, limit, other)) ==>
      Run(crc, limit, one).handled == Run(crc, limit, other).handled
  }

  lemma BareParses(crc: Checksum, more: seq<Byte>)
    ensures Parse(crc, BARE) == Parse(crc, BARE + more) == Got(BARE_FRAME, HEADER_SIZE)
    ensures Parse(crc, BROKEN) == Bad(InvalidMagic) && Parse(crc, []) == Incomplete
  {
    BareHeader(crc, BARE);
    assert BROKEN[..2][0] == 0 && MAGIC_BYTES[0] == 0xCA;
    VerdictsArePrefixStable(crc, BARE, more);
  }

  /** Twelve bytes with the magic number, the version and otherwise zero lengths. */
  lemma BareHeader(crc: Checksum, b: seq<Byte>)
    requires |b| == 12 && b[0] == 0xCA && b[1] == 0xFE && b[2] == 1 && b[3] == 5
    requires b[4] == b[5] == b[6] == b[7] == 0 && b[8] == b[9] == b[10] == b[11] == 0
    ensures Parse(crc, b) == Got(BARE_FRAME, HEADER_SIZE)
  {
    assert b[..2] == [b[0], b[1]] == MAGIC_BYTES;
    assert b[4..8] == [b[4], b[5], b[6], b[7]] == [0, 0, 0, 0];
    assert b[8..12] == [b[8], b[9], b[10], b[11]] == [0, 0, 0, 0];
  }

  lemma RunSnoc(crc: Checksum, limit: int, events: seq<Event>, e: Event)
    ensures Run(crc, limit, events + [e]) == Do(crc, limit, Run(crc, limit, events), e)
    ensures Sent(events + [e]) == Sent(events) + if e.Deliver? then e.chunk else []
  {
    assert (events + [e])[..|events|] == events;
  }

  /** Whatever a call decodes before a refusal is dropped. */
  lemma RefusalDrops(crc: Checksum, limit: int, s: Stream, chunk: seq<Byte>)
    requires !s.closed && ReadBatch(crc, limit, s.buf + chunk).bad
    ensures var s' := Do(crc, limit, s, Deliver(chunk, QUIET));
            s'.closed && s'.handled == s.handled
  {
  }

  /** A good frame and a bad one in one piece: both are decoded, neither is handled. */
  lemma TogetherIsDropped(crc: Checksum, limit: int, s: Stream)
    requires limit >= 2 && !s.closed && s.buf == []
    ensures var s' := Do(crc, limit, s, Deliver(BARE + BROKEN, QUIET));
            s'.closed && s'.handled == s.handled
  {
    assert s.buf + (BARE + BROKEN) == BARE + BROKEN;
    BareThen(crc, limit, BROKEN);
    BrokenIsBad(crc, limit - 1);
    RefusalDrops(crc, limit, s, BARE + BROKEN);
  }

  lemma BrokenIsBad(crc: Checksum, limit: int)
    requires limit >= 1
    ensures ReadBatch(crc, limit, BROKEN) == Batch([], BROKEN, true)
  {
    BareParses(crc, []);
  }

  lemma BareThen(crc: Checksum, limit: int, more: seq<Byte>)
    requires limit >= 1
    ensures var later := ReadBatch(crc, limit - 1, more);
            ReadBatch(crc, limit, BARE + more) == Batch([BARE_FRAME] + later.frames, later.rest, later.bad)
  {
    BareParses(crc, more);
    assert (BARE + more)[HEADER_SIZE..] == more;
  }

  lemma CleanCallHandles(crc: Checksum, limit: int, s: Stream, chunk: seq<Byte>)
    requires !s.closed && !ReadBatch(crc, limit, s.buf + chunk).bad && ReadBatch(crc, limit, s.buf + chunk).rest == []
    ensures var s' := Do(crc, limit, s, Deliver(chunk, QUIET));
            && s'.handled == s.handled + ReadBatch(crc, limit, s.buf + chunk).frames
            && s'.buf == [] && !s'.closed
  {
  }

  lemma BareIsHandled(crc: Checksum, limit: int, s: Stream)
    requires limit >= 1 && !s.closed && s.buf == []
    ensures var s' := Do(crc, limit, s, Deliver(BARE, QUIET));
            s'.handled == s.handled + [BARE_FRAME] && s'.buf == [] && !s'.closed
  {
    assert s.buf + BARE == BARE + [];
    BareThen(crc, limit, []);
    assert ReadBatch(crc, limit - 1, []) == Batch([], [], false);
    CleanCallHandles(crc, limit, s, BARE);
  }

  lemma BrokenIsRefused(crc: Checksum, limit: int, s: Stream)
    requires limit >= 1 && !s.closed && s.buf == []
    ensures var s' := Do(crc, limit, s, Deliver(BROKEN, QUIET));
            s'.closed && s'.handled == s.handled
  {
    assert s.buf + BROKEN == BROKEN;
    BrokenIsBad(crc, limit);
    RefusalDrops(crc, limit, s, BROKEN);
  }

  lemma SentTogether(crc: Checksum, limit: int, none: seq<Event>) returns (events: seq<Event>)
    requires limit >= 2 && none == []
    ensures Quiet(events) && Sent(events) == BARE + BROKEN
    ensures Run(crc, limit, events).closed && Run(crc, limit, events).handled == []
  {
    var whole := Deliver(BARE + BROKEN, QUIET);
    RunSnoc(crc, limit, none, whole);
    TogetherIsDropped(crc, limit, Run(crc, limit, none));
    events := none + [whole];
  }

  lemma ThenBare(crc: Checksum, limit: int, events: seq<Event>) returns (more: seq<Event>)
    requires limit >= 1 && !Run(crc, limit, events).closed && Run(crc, limit, events).buf == [] && Quiet(events)
    ensures !Run(crc, limit, more).closed && Run(crc, limit, more).buf == [] && Quiet(more)
    ensures Run(crc, limit, more).handled == Run(crc, limit, events).handled + [BARE_FRAME]
    ensures Sent(more) == Sent(events) + BARE
  {
    RunSnoc(crc, limit, events, Deliver(BARE, QUIET));
    BareIsHandled(crc, limit, Run(crc, limit, events));
    more := events + [Deliver(BARE, QUIET)];
  }

  lemma ThenBroken(crc: Checksum, limit: int, events: seq<Event>) returns (more: seq<Event>)
    requires limit >= 1 && !Run(crc, limit, events).closed && Run(crc, limit, events).buf == [] && Quiet(events)
    ensures Run(crc, limit, more).closed && Quiet(more)
    ensures Run(crc, limit, more).handled == Run(crc, limit, events).handled
    ensures Sent(more) == Sent(events) + BROKEN
  {
    RunSnoc(crc, limit, events, Deliver(BROKEN, QUIET));
    BrokenIsRefused(crc, limit, Run(crc, limit, events));
    more := events + [Deliver(BROKEN, QUIET)];
  }

  lemma SentApart(crc: Checksum, limit: int, none: seq<Event>) returns (events: seq<Event>)
    requires limit >= 1 && none == []
    ensures Quiet(events) && Sent(events) == BARE + BROKEN
    ensures Run(crc, limit, events).closed && Run(crc, limit, events).handled == [BARE_FRAME]
  {
    var first := ThenBare(crc, limit, none);
    events := ThenBroken(crc, limit, first);
  }

  lemma BatchOfOneHandlesAll(crc: Checksum, one: seq<Event>, other: seq<Event>)
    ensures SameHandled(crc, 1, one, other)
  {
    if Quiet(one) && Quiet(other) && Sent(one) == Sent(other)
       && Settled(Run(crc, 1, one)) && Settled(Run(crc, 1, other)) {
      DecodedFramesIgnoreChunking(crc, 1, one);
      DecodedFramesIgnoreChunking(crc, 1, other);
    }
  }

  /** The frames handed over are the same however the bytes are cut, for all byte
      streams, exactly when the batch limit is one: with a larger one, good frames in
      the same call as a bad frame are dropped. */
  lemma HandledIgnoresChunkingIffBatchOfOne(crc: Checksum, limit: int)
    requires limit >= 1
    ensures (forall one, other :: SameHandled(crc, limit, one, other)) <==> limit == 1
  {
    if limit == 1 {
      forall one, other ensures SameHandled(crc, limit, one, other) {
        BatchOfOneHandlesAll(crc, one, other);
      }
    } else {
      var one := SentTogether(crc, limit, []);
      var other := SentApart(crc, limit, []);
      assert !SameHandled(crc, limit, one, other);
    }
  }
}
