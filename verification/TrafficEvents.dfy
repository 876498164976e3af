/** What one event of a connection's life does to it, whatever the surroundings: strangers
    are turned away, and the handler's answer is the callback's. */
module TrafficEvents {
  import opened WireFormat
  import opened Traffic
  import opened TrafficStreams

  /** The callback runs. */
  predicate Served(s: Stream, e: Event) {
    !s.closed && (e.Deliver? || s.wakes > 0)
  }

  /** The frames the event decoded. */
  function Fresh(s: Stream, s': Stream): seq<Frame>
    requires s.decoded <= s'.decoded
  {
    s'.decoded[|s.decoded|..]
  }

  /** Decoding ended at bytes that are no frame. */
  predicate EndsBad(crc: Checksum, limit: int, s: Stream, s': Stream)
    requires s.decoded <= s'.decoded
  {
    |Fresh(s, s')| < limit && Parse(crc, s'.buf).Bad?
  }

  /** The loop took a whole batch and left bytes behind. */
  predicate LeavesBytes(limit: int, s: Stream, s': Stream)
    requires s.decoded <= s'.decoded
  {
    |Fresh(s, s')| == limit && s'.buf != []
  }

  lemma CallGrows(crc: Checksum, limit: int, s: Stream, w: World)
    ensures var s' := Call(crc, limit, s, w);
            && s.decoded <= s'.decoded && Fresh(s, s') == ReadBatch(crc, limit, s.buf).frames
            && s'.buf == ReadBatch(crc, limit, s.buf).rest
  {
    var batch := ReadBatch(crc, limit, s.buf);
    var s' := Call(crc, limit, s, w);
    assert s'.decoded == s.decoded + batch.frames;
  }

  /** What a call hands over, whether it closes and whether it wakes. */
  lemma CallLaw(crc: Checksum, limit: int, s: Stream, w: World)
    requires limit >= 1 && !s.closed
    ensures var s' := Call(crc, limit, s, w);
            && s.decoded <= s'.decoded
            && s'.handled == s.handled + (if EndsBad(crc, limit, s, s') || !w.known then [] else Fresh(s, s'))
            && (s'.closed <==>
                || EndsBad(crc, limit, s, s')
                || (Fresh(s, s') != [] && (!w.known || w.handler != NoAction))
                || (LeavesBytes(limit, s, s') && w.wakeFails))
            && s'.wakes == s.wakes + (if LeavesBytes(limit, s, s') && !s'.closed then 1 else 0)
  {
    CallGrows(crc, limit, s, w);
    BatchReads(crc, limit, s.buf);
  }

  /** Over every run, for each event the callback serves: the connection's manager knowing
      it and decoding not ending at bad bytes, the handler gets exactly the frames decoded,
      and otherwise nothing; the connection is closed exactly for bad bytes, for frames from
      a stranger, for a handler that says so, and for a wake that fails; and it is woken
      exactly when a whole batch left bytes behind and it stays open. */
  lemma {:induction false} ServedEvent(crc: Checksum, limit: int, events: seq<Event>, e: Event)
    requires limit >= 1 && Served(Run(crc, limit, events), e)
    ensures var s, s', w := Run(crc, limit, events), Run(crc, limit, events + [e]), e.w;
            && s.decoded <= s'.decoded
            && s'.handled == s.handled + (if EndsBad(crc, limit, s, s') || !w.known then [] else Fresh(s, s'))
            && (s'.closed <==>
                || EndsBad(crc, limit, s, s')
                || (Fresh(s, s') != [] && (!w.known || w.handler != NoAction))
                || (LeavesBytes(limit, s, s') && w.wakeFails))
            && s'.wakes == s.wakes - (if e.WakeUp? then 1 else 0)
                           + (if LeavesBytes(limit, s, s') && !s'.closed then 1 else 0)
  {
    RunSnoc(crc, limit, events, e);
    var s := Run(crc, limit, events);
    match e
    case Deliver(chunk, w) => CallLaw(crc, limit, s.(buf := s.buf + chunk, taken := s.taken + chunk), w);
    case WakeUp(w) => CallLaw(crc, limit, s.(wakes := s.wakes - 1), w);
  }

  /** A connection the manager does not know hands nothing over, over any number of events,
      and is closed as soon as a frame is decoded. */
  lemma {:induction false} StrangersAreTurnedAway(crc: Checksum, limit: int, events: seq<Event>)
    requires limit >= 1 && forall e :: e in events ==> !e.w.known
    ensures var s := Run(crc, limit, events);
            s.handled == [] && (s.decoded != [] ==> s.closed)
  {
    if events != [] {
      var n := |events| - 1;
      var init := events[..n];
      StrangersAreTurnedAway(crc, limit, init);
      assert events == init + [events[n]];
      if Served(Run(crc, limit, init), events[n]) {
        ServedEvent(crc, limit, init, events[n]);
      }
    }
  }

  /** The callback's answer, for any bytes: the handler's when it is called and has one,
      and it shuts the server down for nothing else. */
  lemma AnswersForTheHandler(crc: Checksum, limit: int, w: World, b: seq<Byte>)
    ensures var o := OnTraffic(crc, limit, w, b);
            && (o.handled != [] ==> w.known && o.handled == o.decoded)
            && (o.handled != [] && w.handler != NoAction ==> o.action == w.handler)
            && (o.action == Shutdown ==> o.handled != [] && w.handler == Shutdown)
            && (o.decoded != [] && !w.known ==> o.action == Close)
            && (o.woke ==> o.action == NoAction && !w.wakeFails)
  {
  }
}
