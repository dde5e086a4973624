/** The capture loop: TCP segments of many connections, each fed to the stream of its connection. */
module PcapExtract {
  import opened Wrappers
  import opened Frames
  import opened StreamParser
  import opened StreamObject
  import opened StreamRuns

  /** One captured segment: its connection, who sent it, its payload if it has one, and whether it
      carries FIN+ACK or RST. */
  datatype Segment = Segment(stream: int, source: int, payload: Option<bytes>, closes: bool)

  /** A connection being tracked: the endpoint whose payload came first, its parser, and whether its
      client data has been announced. */
  datatype Tracked = Tracked(initiator: int, parser: Parser, seen: bool)

  /** What is written to the output: a packet with its Ethernet type, or the announcement of a client. */
  datatype Frame =
    | Announcement(username: bytes, password: bytes, ipv4: bytes, ipv6: bytes)
    | Wrapped(direction: Direction, ethertype: int, packet: bytes)

  datatype Tagged = Tagged(stream: int, frame: Frame)

  function Tag(k: int, fs: seq<Frame>): seq<Tagged> {
    seq(|fs|, i requires 0 <= i < |fs| => Tagged(k, fs[i]))
  }

  // ----- writing packets -----

  function Announce(p: Parser): Frame {
    Announcement(p.username, p.password, p.ipv4, p.ipv6)
  }

  /** The IP version is the upper half of the first byte. */
  function Wrap(e: Emission): Frame
    requires e.packet != []
  {
    var version := e.packet[0] as int / 16;
    Wrapped(e.direction, if version == 4 then 0x0800 else if version == 6 then 0x86dd else 0xffff, e.packet)
  }

  /** All packets that are not empty, in order. */
  function WrapAll(es: seq<Emission>): seq<Frame> {
    if es == [] then []
    else WrapAll(es[..|es| - 1]) + WrapOne(es[|es| - 1])
  }

  function WrapOne(e: Emission): seq<Frame> {
    if e.packet == [] then [] else [Wrap(e)]
  }

  /** What is written for packets of a connection, and whether its client is announced afterwards: the
      announcement goes in front of the first packet that is not empty. */
  function WriteOut(es: seq<Emission>, seen: bool, p: Parser): (seq<Frame>, bool) {
    var frames := WrapAll(es);
    (if seen || frames == [] then frames else [Announce(p)] + frames, seen || frames != [])
  }

  lemma {:induction false} WrapAllConcat(es: seq<Emission>, more: seq<Emission>)
    ensures WrapAll(es + more) == WrapAll(es) + WrapAll(more)
  {
    if more == [] {
      assert es + more == es;
    } else {
      assert (es + more)[..|es + more| - 1] == es + more[..|more| - 1];
      WrapAllConcat(es, more[..|more| - 1]);
    }
  }

  /** One packet more. */
  lemma WriteOutMore(es: seq<Emission>, e: Emission, seen: bool, p: Parser)
    ensures var (front, announced) := WriteOut(es, seen, p);
            WriteOut(es + [e], seen, p) ==
            if e.packet == [] then (front, announced)
            else (if announced then front + [Wrap(e)] else front + [Announce(p)] + [Wrap(e)], true)
  {
    var frames := WrapAll(es);
    assert (es + [e])[..|es + [e]| - 1] == es;
    assert frames + [] == frames;
    if e.packet != [] {
      assert [Announce(p)] + (frames + [Wrap(e)]) == [Announce(p)] + frames + [Wrap(e)];
      assert frames == [] ==> [Announce(p)] + (frames + [Wrap(e)]) == frames + [Announce(p)] + [Wrap(e)];
    }
  }

  /** Writing packets in two portions is writing them in one, if the client is the same by then. */
  lemma WriteOutConcat(es: seq<Emission>, more: seq<Emission>, p: Parser, p': Parser)
    requires es == [] || Announce(p) == Announce(p')
    ensures var (front, announced) := WriteOut(es, false, p);
            var (rest, announced') := WriteOut(more, announced, p');
            WriteOut(es + more, false, p') == (front + rest, announced')
  {
    WrapAllConcat(es, more);
    if WrapAll(es) == [] {
      assert WrapAll(es) + WrapAll(more) == WrapAll(more);
      assert [] + WriteOut(more, false, p').0 == WriteOut(more, false, p').0;
    } else {
      assert [Announce(p')] + (WrapAll(es) + WrapAll(more)) == [Announce(p')] + WrapAll(es) + WrapAll(more);
    }
  }

  // ----- one connection -----

  function SideOf(initiator: int, source: int): Direction {
    if source == initiator then OUTBOUND else INBOUND
  }

  /** The tracked connection once the payload of s is in its buffer. */
  function Receive(entry: Option<Tracked>, s: Segment): Tracked
    requires s.payload.Some?
  {
    match entry
    case Some(t) => t.(parser := Feed(t.parser, SideOf(t.initiator, s.source), s.payload.value))
    case None => Tracked(s.source, Feed(Fresh(), OUTBOUND, s.payload.value), false)
  }

  /** The packets that are complete by now go to the output. */
  function Forward(t: Tracked): (Tracked, seq<Frame>) {
    var (p, es) := Process(t.parser);
    var (frames, seen) := WriteOut(es, t.seen, p);
    (Tracked(t.initiator, p, seen), frames)
  }

  /** What one segment does to its own connection. */
  function Handle(entry: Option<Tracked>, s: Segment): (Option<Tracked>, seq<Frame>) {
    var (t, written) :=
      if s.payload.Some? then
        var (t, frames) := Forward(Receive(entry, s));
        (Some(t), frames)
      else (entry, []);
    (if s.closes then None else t, written)
  }

  function Connection(segments: seq<Segment>): (Option<Tracked>, seq<Frame>) {
    if segments == [] then (None, [])
    else
      var (t, written) := Connection(segments[..|segments| - 1]);
      var (t', more) := Handle(t, segments[|segments| - 1]);
      (t', written + more)
  }

  // ----- all connections -----

  type Table = map<int, Tracked>

  function Lookup(table: Table, k: int): Option<Tracked> {
    if k in table then Some(table[k]) else None
  }

  function Update(table: Table, k: int, entry: Option<Tracked>): Table {
    match entry
    case Some(t) => table[k := t]
    case None => table - {k}
  }

  function Capture(segments: seq<Segment>): (Table, seq<Tagged>) {
    if segments == [] then (map[], [])
    else
      var (table, written) := Capture(segments[..|segments| - 1]);
      var s := segments[|segments| - 1];
      var (entry, more) := Handle(Lookup(table, s.stream), s);
      (Update(table, s.stream, entry), written + Tag(s.stream, more))
  }

  /** The segments of connection k. */
  function Own(segments: seq<Segment>, k: int): seq<Segment> {
    if segments == [] then []
    else
      var front := Own(segments[..|segments| - 1], k);
      var s := segments[|segments| - 1];
      if s.stream == k then front + [s] else front
  }

  /** What is written for connection k. */
  function OfStream(written: seq<Tagged>, k: int): seq<Frame> {
    if written == [] then []
    else
      var front := OfStream(written[..|written| - 1], k);
      var last := written[|written| - 1];
      if last.stream == k then front + [last.frame] else front
  }

  lemma {:induction false} OfStreamConcat(e: seq<Tagged>, f: seq<Tagged>, k: int)
    ensures OfStream(e + f, k) == OfStream(e, k) + OfStream(f, k)
  {
    if f == [] {
      assert e + f == e;
    } else {
      assert (e + f)[..|e + f| - 1] == e + f[..|f| - 1];
      OfStreamConcat(e, f[..|f| - 1], k);
    }
  }

  lemma {:induction false} OfStreamTag(fs: seq<Frame>, j: int, k: int)
    ensures OfStream(Tag(j, fs), k) == if j == k then fs else []
  {
    if fs != [] {
      var n := |fs| - 1;
      assert Tag(j, fs)[..n] == Tag(j, fs[..n]);
      OfStreamTag(fs[..n], j, k);
      assert fs == fs[..n] + [fs[n]];
    }
  }

  /** Connections do not disturb each other: what the capture keeps and writes for connection k is
      what k's own segments alone produce. */
  lemma {:induction false} ConnectionsIndependent(segments: seq<Segment>, k: int)
    ensures Lookup(Capture(segments).0, k) == Connection(Own(segments, k)).0
    ensures OfStream(Capture(segments).1, k) == Connection(Own(segments, k)).1
  {
    if segments != [] {
      var before, s := segments[..|segments| - 1], segments[|segments| - 1];
      ConnectionsIndependent(before, k);
      var (entry, more) := Handle(Lookup(Capture(before).0, s.stream), s);
      OfStreamConcat(Capture(before).1, Tag(s.stream, more), k);
      OfStreamTag(more, s.stream, k);
      if s.stream == k {
        assert Own(segments, k)[..|Own(segments, k)| - 1] == Own(before, k);
      }
    }
  }

  /** The chunks an open connection has received: payloads labelled by side. */
  function ChunksOf(segments: seq<Segment>, initiator: int): seq<Chunk> {
    if segments == [] then []
    else
      var front := ChunksOf(segments[..|segments| - 1], initiator);
      var s := segments[|segments| - 1];
      match s.payload
      case None => front
      case Some(data) => front + [Chunk(SideOf(initiator, s.source), data)]
  }

  /** A connection that has not been closed is a run of its payload chunks, with the sender of the
      first payload as initiator; what has been written is one announcement of its client, and then the
      packets of the run that are not empty. */
  lemma {:induction false} ConnectionIsRun(segments: seq<Segment>)
    requires forall i | 0 <= i < |segments| :: !segments[i].closes
    ensures match Connection(segments).0
            case None => Connection(segments).1 == [] && forall i | 0 <= i < |segments| :: segments[i].payload.None?
            case Some(t) =>
              var (parser, emitted) := Run(ChunksOf(segments, t.initiator));
              && t.parser == parser
              && (Connection(segments).1, t.seen) == WriteOut(emitted, false, parser)
  {
    if segments != [] {
      var before, s := segments[..|segments| - 1], segments[|segments| - 1];
      ConnectionIsRun(before);
      var (t, written) := Connection(before);
      assert written + [] == written;
      if s.payload.Some? {
        var initiator := if t.Some? then t.value.initiator else s.source;
        if t.None? {
          NoPayloadNoChunks(before, initiator);
        }
        RunWrites(ChunksOf(before, initiator), Chunk(SideOf(initiator, s.source), s.payload.value));
      }
    }
  }

  /** One chunk more: the frames written for its packets follow those written before. */
  lemma RunWrites(chunks: seq<Chunk>, c: Chunk)
    ensures var (p, emitted) := Run(chunks);
            var (p', more) := Process(Feed(p, c.direction, c.data));
            var (front, seen) := WriteOut(emitted, false, p);
            var (rest, seen') := WriteOut(more, seen, p');
            && Run(chunks + [c]) == (p', emitted + more)
            && WriteOut(emitted + more, false, p') == (front + rest, seen')
  {
    var (p, emitted) := Run(chunks);
    var (p', more) := Process(Feed(p, c.direction, c.data));
    RunStep(chunks, c);
    EmitsOnlyEstablished(chunks);
    WriteOutConcat(emitted, more, p, p');
  }

  /** Packets only come out once login and addresses are known, and these stay. */
  lemma {:induction false} EmitsOnlyEstablished(chunks: seq<Chunk>)
    ensures Run(chunks).1 != [] ==> Run(chunks).0.state == ESTABLISHED
  {
    if chunks != [] {
      EmitsOnlyEstablished(chunks[..|chunks| - 1]);
    }
  }

  lemma RunStep(chunks: seq<Chunk>, c: Chunk)
    ensures var (p, emitted) := Run(chunks);
            var (p', more) := Process(Feed(p, c.direction, c.data));
            Run(chunks + [c]) == (p', emitted + more)
  {
    assert (chunks + [c])[..|chunks + [c]| - 1] == chunks;
  }

  lemma {:induction false} NoPayloadNoChunks(segments: seq<Segment>, initiator: int)
    requires forall i | 0 <= i < |segments| :: segments[i].payload.None?
    ensures ChunksOf(segments, initiator) == []
  {
    if segments != [] {
      NoPayloadNoChunks(segments[..|segments| - 1], initiator);
    }
  }

  // ----- the loop -----

  datatype Entry = Entry(initiator: int, stream: Stream)

  /** The dictionary holds one live object per tracked connection, in the state the table gives. */
  ghost predicate Represents(streams: map<int, Entry>, table: Table)
    reads set k | k in streams :: streams[k].stream
  {
    && streams.Keys == table.Keys
    && (forall k | k in streams ::
          Tracked(streams[k].initiator, streams[k].stream.View(), streams[k].stream.seen) == table[k])
    && (forall j, k | j in streams && k in streams && j != k :: streams[j].stream != streams[k].stream)
  }

  /** The `for direction, encapsulated` loop. */
  method WritePackets(stream: Stream, es: seq<Emission>) returns (written: seq<Frame>)
    modifies stream`seen
    ensures (written, stream.seen) == WriteOut(es, old(stream.seen), stream.View())
  {
    written := [];
    for i := 0 to |es|
      invariant (written, stream.seen) == WriteOut(es[..i], old(stream.seen), stream.View())
    {
      assert es[..i + 1] == es[..i] + [es[i]];
      WriteOutMore(es[..i], es[i], old(stream.seen), stream.View());
      if es[i].packet == [] {
        continue;
      }
      if !stream.seen {
        stream.seen := true;
        written := written + [Announcement(stream.username, stream.password, stream.ipv4, stream.ipv6)];
      }
      written := written + [Wrap(es[i])];
    }
    assert es[..|es|] == es;
  }

  /** The payload goes into the buffer of its connection's stream, which is made if need be. */
  method Deliver(streams: map<int, Entry>, s: Segment, ghost table: Table) returns (streams': map<int, Entry>)
    requires Represents(streams, table) && s.payload.Some?
    modifies set k | k in streams :: streams[k].stream
    ensures Represents(streams', table[s.stream := Receive(Lookup(table, s.stream), s)])
    ensures forall k | k in streams' :: (k in streams && streams'[k] == streams[k]) || fresh(streams'[k].stream)
  {
    streams' := streams;
    if s.stream in streams {
      var stream := streams[s.stream].stream;
      if s.source == streams[s.stream].initiator {
        stream.Receive(OUTBOUND, s.payload.value);
      } else {
        stream.Receive(INBOUND, s.payload.value);
      }
    } else {
      var stream := new Stream(s.payload.value);
      streams' := streams[s.stream := Entry(s.source, stream)];
    }
  }

  /** Runs the parser of connection k and writes what it yields. */
  method ForwardStream(streams: map<int, Entry>, k: int, ghost table: Table) returns (written: seq<Frame>)
    requires Represents(streams, table) && k in streams
    modifies streams[k].stream
    ensures Represents(streams, table[k := Forward(table[k]).0]) && written == Forward(table[k]).1
  {
    var stream := streams[k].stream;
    ghost var before := stream.View();
    var es := stream.Process();
    written := WritePackets(stream, es);
    assert Forward(Tracked(streams[k].initiator, before, old(stream.seen)))
           == (Tracked(streams[k].initiator, stream.View(), stream.seen), written);
  }

  /** The body of the capture loop. */
  method Step(streams: map<int, Entry>, s: Segment, ghost table: Table)
    returns (streams': map<int, Entry>, written: seq<Tagged>)
    requires Represents(streams, table)
    modifies set k | k in streams :: streams[k].stream
    ensures var (entry, more) := Handle(Lookup(table, s.stream), s);
            Represents(streams', Update(table, s.stream, entry)) && written == Tag(s.stream, more)
    ensures forall k | k in streams' :: (k in streams && streams'[k] == streams[k]) || fresh(streams'[k].stream)
  {
    streams' := streams;
    written := [];
    if s.payload.Some? {
      streams' := Deliver(streams, s, table);
      ghost var delivered := table[s.stream := Receive(Lookup(table, s.stream), s)];
      var frames := ForwardStream(streams', s.stream, delivered);
      written := Tag(s.stream, frames);
    }
    if s.closes {
      streams' := streams' - {s.stream};
    }
  }

  method Extract(segments: seq<Segment>) returns (written: seq<Tagged>)
    ensures written == Capture(segments).1
  {
    written := [];
    var streams: map<int, Entry> := map[];
    for i := 0 to |segments|
      invariant Represents(streams, Capture(segments[..i]).0)
      invariant written == Capture(segments[..i]).1
      invariant forall k | k in streams :: fresh(streams[k].stream)
    {
      assert segments[..i + 1][..i] == segments[..i];
      var more;
      streams, more := Step(streams, segments[i], Capture(segments[..i]).0);
      written := written + more;
    }
    assert segments[..|segments|] == segments;
  }
}
