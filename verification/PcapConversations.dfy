/** Captured connections seen from the endpoints: who sends what, when a connection ends, and what of a
    whole conversation is written. */
module PcapConversations {
  import opened Wrappers
  import opened Frames
  import opened StreamParser
  import opened StreamRuns
  import opened PcapExtract

  // ----- who sends what -----

  /** All payload bytes from the endpoint. */
  function SentBy(segments: seq<Segment>, endpoint: int): bytes {
    if segments == [] then []
    else
      var s := segments[|segments| - 1];
      SentBy(segments[..|segments| - 1], endpoint) +
      (if s.source == endpoint && s.payload.Some? then s.payload.value else [])
  }

  /** All payload bytes from anyone else. */
  function SentByOthers(segments: seq<Segment>, endpoint: int): bytes {
    if segments == [] then []
    else
      var s := segments[|segments| - 1];
      SentByOthers(segments[..|segments| - 1], endpoint) +
      (if s.source != endpoint && s.payload.Some? then s.payload.value else [])
  }

  /** The bytes of the initiator are outbound, those of the other side inbound. */
  lemma {:induction false} SidesAreEndpoints(segments: seq<Segment>, initiator: int)
    ensures Bytes(ChunksOf(segments, initiator), OUTBOUND) == SentBy(segments, initiator)
    ensures Bytes(ChunksOf(segments, initiator), INBOUND) == SentByOthers(segments, initiator)
  {
    if segments != [] {
      var before, s := segments[..|segments| - 1], segments[|segments| - 1];
      SidesAreEndpoints(before, initiator);
      if s.payload.Some? {
        var chunks := ChunksOf(before, initiator);
        var c := Chunk(SideOf(initiator, s.source), s.payload.value);
        assert (chunks + [c])[..|chunks + [c]| - 1] == chunks;
      }
    }
  }

  /** The endpoint sent the first payload. */
  ghost predicate SentFirst(segments: seq<Segment>, endpoint: int) {
    exists i | 0 <= i < |segments| ::
      && segments[i].payload.Some? && segments[i].source == endpoint
      && forall j | 0 <= j < i :: segments[j].payload.None?
  }

  ghost predicate NoneCloses(segments: seq<Segment>) {
    forall i | 0 <= i < |segments| :: !segments[i].closes
  }

  /** The initiator of an open connection is who sent its first payload. */
  lemma {:induction false} InitiatorSentFirst(segments: seq<Segment>)
    requires NoneCloses(segments) && Connection(segments).0.Some?
    ensures SentFirst(segments, Connection(segments).0.value.initiator)
  {
    var before, s := segments[..|segments| - 1], segments[|segments| - 1];
    if Connection(before).0.Some? {
      InitiatorSentFirst(before);
      var i :| 0 <= i < |before| && before[i].payload.Some?
               && before[i].source == Connection(before).0.value.initiator
               && forall j | 0 <= j < i :: before[j].payload.None?;
      assert segments[i] == before[i] && forall j | 0 <= j < i :: segments[j] == before[j];
    } else {
      ConnectionIsRun(before);
      assert forall j | 0 <= j < |before| :: segments[j] == before[j];
      assert segments[|segments| - 1].payload.Some?;
    }
  }

  // ----- the end of a connection -----

  /** The segment without its close. */
  function LeftOpen(s: Segment): Segment {
    s.(closes := false)
  }

  /** A segment that closes a connection is read like any other; the connection is gone afterwards. */
  lemma CloseReadsPayload(segments: seq<Segment>, s: Segment)
    requires s.closes
    ensures Connection(segments + [s]) == (None, Connection(segments + [LeftOpen(s)]).1)
  {
    ConnectionOneMore(segments, s);
    ConnectionOneMore(segments, LeftOpen(s));
  }

  /** What comes after a close starts afresh, as if nothing had been before. */
  lemma {:induction false} ClosedStartsAfresh(segments: seq<Segment>, more: seq<Segment>)
    requires segments != [] && segments[|segments| - 1].closes
    ensures Connection(segments + more) == (Connection(more).0, Connection(segments).1 + Connection(more).1)
  {
    if more == [] {
      assert segments + more == segments;
      assert Connection(segments).1 + [] == Connection(segments).1;
    } else {
      var n := |more| - 1;
      ClosedStartsAfresh(segments, more[..n]);
      assert more == more[..n] + [more[n]];
      AfreshOneMore(segments, more[..n], more[n]);
    }
  }

  lemma AfreshOneMore(segments: seq<Segment>, more: seq<Segment>, s: Segment)
    requires Connection(segments + more) == (Connection(more).0, Connection(segments).1 + Connection(more).1)
    ensures Connection(segments + (more + [s])) == (Connection(more + [s]).0, Connection(segments).1 + Connection(more + [s]).1)
  {
    Associative(segments, more, [s]);
    ConnectionOneMore(segments + more, s);
    ConnectionOneMore(more, s);
    Associative(Connection(segments).1, Connection(more).1, Handle(Connection(more).0, s).1);
  }

  lemma Associative<T>(a: seq<T>, b: seq<T>, c: seq<T>)
    ensures a + b + c == a + (b + c)
  {
  }

  lemma ConnectionOneMore(segments: seq<Segment>, s: Segment)
    ensures var (t, written) := Connection(segments);
            Connection(segments + [s]) == (Handle(t, s).0, written + Handle(t, s).1)
  {
    assert (segments + [s])[..|segments + [s]| - 1] == segments;
  }

  // ----- what is written -----

  /** The type written with a packet: IPv4 and IPv6 packets begin with a 4 and a 6 in the upper half of
      their first byte. */
  lemma TypeOfPacket(e: Emission)
    requires e.packet != []
    ensures Wrap(e).direction == e.direction && Wrap(e).packet == e.packet
    ensures Wrap(e).ethertype == if 0x40 <= e.packet[0] <= 0x4f then 0x0800
                                 else if 0x60 <= e.packet[0] <= 0x6f then 0x86dd else 0xffff
  {
  }

  /** The packets of one direction among what was written. */
  function PacketsWritten(frames: seq<Frame>, d: Direction): seq<bytes> {
    if frames == [] then []
    else
      var front := PacketsWritten(frames[..|frames| - 1], d);
      var last := frames[|frames| - 1];
      if last.Wrapped? && last.direction == d then front + [last.packet] else front
  }

  function NonEmpty(packets: seq<bytes>): seq<bytes> {
    if packets == [] then []
    else
      var front := NonEmpty(packets[..|packets| - 1]);
      if packets[|packets| - 1] == [] then front else front + [packets[|packets| - 1]]
  }

  lemma PacketsWrittenOne(frames: seq<Frame>, f: Frame, d: Direction)
    ensures PacketsWritten(frames + [f], d) ==
            PacketsWritten(frames, d) + if f.Wrapped? && f.direction == d then [f.packet] else []
  {
    assert (frames + [f])[..|frames + [f]| - 1] == frames;
  }

  lemma {:induction false} PacketsOfWrapAll(es: seq<Emission>, d: Direction)
    ensures PacketsWritten(WrapAll(es), d) == NonEmpty(Packets(es, d))
    ensures forall i | 0 <= i < |WrapAll(es)| :: WrapAll(es)[i].Wrapped?
  {
    if es != [] {
      var n := |es| - 1;
      PacketsOfWrapAll(es[..n], d);
      var ps := Packets(es[..n], d);
      assert (ps + [es[n].packet])[..|ps + [es[n].packet]| - 1] == ps;
      if es[n].packet != [] {
        PacketsWrittenOne(WrapAll(es[..n]), Wrap(es[n]), d);
      } else {
        assert WrapAll(es[..n]) + [] == WrapAll(es[..n]);
      }
    }
  }

  lemma {:induction false} AnnouncementIsNoPacket(a: Frame, frames: seq<Frame>, d: Direction)
    requires a.Announcement?
    ensures PacketsWritten([a] + frames, d) == PacketsWritten(frames, d)
  {
    if frames == [] {
      assert ([a] + frames)[..|[a] + frames| - 1] == [];
    } else {
      assert ([a] + frames)[..|[a] + frames| - 1] == [a] + frames[..|frames| - 1];
      AnnouncementIsNoPacket(a, frames[..|frames| - 1], d);
    }
  }

  /** The first frame and no other is an announcement, namely this one. */
  predicate AnnouncedOnce(frames: seq<Frame>, a: Frame) {
    frames == [] || (frames[0] == a && forall i | 0 < i < |frames| :: frames[i].Wrapped?)
  }

  /** From segments to what is written, by endpoints and for any conversation: whoever sends first is the
      client; it sends a login and packets, the other side sends addresses and packets. However the bytes
      are cut into segments, exactly the packets that are not empty are written, in order per direction,
      after one announcement of exactly this login and these addresses. */
  lemma {:induction false} ConversationWritten(segments: seq<Segment>, client: int,
                                               name: bytes, password: bytes, ipv4: bytes, ipv6: bytes,
                                               outs: seq<bytes>, ins: seq<bytes>)
    requires NoneCloses(segments) && SentFirst(segments, client)
    requires |name| <= 0xFF && |password| <= 0xFF && |ipv4| == 4 && |ipv6| == 16
    requires AllFramable(outs) && AllFramable(ins)
    requires SentBy(segments, client) == [|name|] + name + [|password|] + password + Encode(outs)
    requires SentByOthers(segments, client) == ipv4 + ipv6 + Encode(ins)
    ensures var frames := Connection(segments).1;
            && AnnouncedOnce(frames, Announcement(name, password, ipv4, ipv6))
            && PacketsWritten(frames, OUTBOUND) == NonEmpty(outs)
            && PacketsWritten(frames, INBOUND) == NonEmpty(ins)
  {
    ConnectionIsRun(segments);
    InitiatorIs(segments, client);
    var chunks := ChunksOf(segments, client);
    SidesAreEndpoints(segments, client);
    ParserUndoesPrinter(chunks, name, password, ipv4, ipv6, outs, ins);
    var emitted := Run(chunks).1;
    PacketsOfWrapAll(emitted, OUTBOUND);
    PacketsOfWrapAll(emitted, INBOUND);
    var a := Announcement(name, password, ipv4, ipv6);
    AnnouncementIsNoPacket(a, WrapAll(emitted), OUTBOUND);
    AnnouncementIsNoPacket(a, WrapAll(emitted), INBOUND);
  }

  lemma InitiatorIs(segments: seq<Segment>, client: int)
    requires NoneCloses(segments) && SentFirst(segments, client)
    ensures Connection(segments).0.Some? && Connection(segments).0.value.initiator == client
  {
    ConnectionIsRun(segments);
    InitiatorSentFirst(segments);
  }
}
