/** Whole captures of one stream: what is emitted, and what is left, after any chunks of bytes. */
module StreamRuns {
  import opened Wrappers
  import opened Frames
  import opened StreamParser

  datatype Chunk = Chunk(direction: Direction, data: bytes)

  /** All bytes of one direction. */
  function Bytes(chunks: seq<Chunk>, d: Direction): bytes {
    if chunks == [] then []
    else Bytes(chunks[..|chunks| - 1], d) + Part(chunks[|chunks| - 1], d)
  }

  function Part(c: Chunk, d: Direction): bytes {
    if c.direction == d then c.data else []
  }

  /** Receive every chunk in turn, calling process after each. */
  function Run(chunks: seq<Chunk>): (Parser, seq<Emission>) {
    if chunks == [] then (Fresh(), [])
    else
      var (p, emitted) := Run(chunks[..|chunks| - 1]);
      var c := chunks[|chunks| - 1];
      var (p', more) := Process(Feed(p, c.direction, c.data));
      (p', emitted + more)
  }

  /** The packets of one direction, in order. */
  function Packets(emitted: seq<Emission>, d: Direction): seq<bytes> {
    if emitted == [] then []
    else
      var front := Packets(emitted[..|emitted| - 1], d);
      var last := emitted[|emitted| - 1];
      if last.direction == d then front + [last.packet] else front
  }

  lemma {:induction false} PacketsConcat(e: seq<Emission>, f: seq<Emission>, d: Direction)
    ensures Packets(e + f, d) == Packets(e, d) + Packets(f, d)
  {
    if f == [] {
      assert e + f == e;
    } else {
      assert (e + f)[..|e + f| - 1] == e + f[..|f| - 1];
      PacketsConcat(e, f[..|f| - 1], d);
    }
  }

  lemma {:induction false} PacketsOfLabel(ps: seq<bytes>, d: Direction, d': Direction)
    ensures Packets(Label(d, ps), d') == if d == d' then ps else []
  {
    if ps != [] {
      var n := |ps| - 1;
      assert Label(d, ps)[..n] == Label(d, ps[..n]);
      PacketsOfLabel(ps[..n], d, d');
      assert ps == ps[..n] + [ps[n]];
    }
  }

  // ----- the result as a function of the total bytes -----

  /** What process makes of all bytes at once. */
  function AtOnce(outbound: bytes, inbound: bytes): Parser {
    Process(Fresh().(outbound := outbound, inbound := inbound)).0
  }

  function PacketsAtOnce(outbound: bytes, inbound: bytes, d: Direction): seq<bytes> {
    Packets(Process(Fresh().(outbound := outbound, inbound := inbound)).1, d)
  }

  /** The packets of one direction that an established parser takes out. */
  lemma TakenPackets(p: Parser, d: Direction)
    ensures Packets(TakePackets(p).1, d) ==
            if !p.state.ESTABLISHED? then []
            else if d == OUTBOUND then Drain(p.outbound).0 else Drain(p.inbound).0
  {
    if p.state.ESTABLISHED? {
      var outs, ins := Drain(p.outbound).0, Drain(p.inbound).0;
      PacketsConcat(Label(OUTBOUND, outs), Label(INBOUND, ins), d);
      PacketsOfLabel(outs, OUTBOUND, d);
      PacketsOfLabel(ins, INBOUND, d);
    }
  }

  /** More bytes behind a complete login do not change it. */
  lemma LoginAppend(raw: bytes, more: bytes)
    requires SplitLogin(raw).Some?
    ensures SplitLogin(raw + more) ==
            Some(SplitLogin(raw).value.(rest := SplitLogin(raw).value.rest + more))
  {
    var n := raw[0] as int;
    var m := raw[n + 1] as int;
    assert (raw + more)[1..1 + n] == raw[1..1 + n];
    assert (raw + more)[1 + n + 1..1 + n + 1 + m] == raw[1 + n + 1..1 + n + 1 + m];
    assert (raw + more)[1 + n + 1 + m..] == raw[1 + n + 1 + m..] + more;
  }

  /** The two header phases of process. */
  function TakeHeaders(p: Parser): Parser {
    TakeAddresses(TakeLogin(p))
  }

  /** Headers taken early are the headers taken late. */
  lemma HeadersAppend(p: Parser, d: Direction, data: bytes)
    ensures TakeHeaders(Feed(p, d, data)) == TakeHeaders(Feed(TakeHeaders(p), d, data))
    ensures TakeHeaders(p).state.ESTABLISHED? ==>
              TakeHeaders(Feed(p, d, data)) == Feed(TakeHeaders(p), d, data)
  {
    LoginPhaseAppend(p, d, data);
    AddressPhaseAppend(TakeLogin(p), d, data);
  }

  lemma LoginPhaseAppend(p: Parser, d: Direction, data: bytes)
    ensures TakeLogin(Feed(p, d, data)) == TakeLogin(Feed(TakeLogin(p), d, data))
    ensures !TakeLogin(p).state.NEW? ==> TakeLogin(Feed(p, d, data)) == Feed(TakeLogin(p), d, data)
  {
    if p.state.NEW? && SplitLogin(p.outbound).Some? && d == OUTBOUND {
      LoginAppend(p.outbound, data);
    }
  }

  lemma AddressPhaseAppend(p: Parser, d: Direction, data: bytes)
    ensures TakeAddresses(Feed(p, d, data)) == TakeAddresses(Feed(TakeAddresses(p), d, data))
    ensures TakeAddresses(p).state.ESTABLISHED? ==>
              TakeAddresses(Feed(p, d, data)) == Feed(TakeAddresses(p), d, data)
    ensures p.state.NEW? ==> TakeAddresses(p) == p
  {
    if p.state.PARTIAL? && ADDRESS_BYTES <= |p.inbound| && d == INBOUND {
      assert (p.inbound + data)[..4] == p.inbound[..4];
      assert (p.inbound + data)[4..ADDRESS_BYTES] == p.inbound[4..ADDRESS_BYTES];
      assert (p.inbound + data)[ADDRESS_BYTES..] == p.inbound[ADDRESS_BYTES..] + data;
    }
  }

  /** Draining before a chunk arrives is draining after it, in two parts. */
  lemma DrainEarly(h: Parser, d: Direction, data: bytes, d': Direction)
    requires h.state.ESTABLISHED?
    ensures TakePackets(Feed(TakePackets(h).0, d, data)).0 == TakePackets(Feed(h, d, data)).0
    ensures Packets(TakePackets(h).1, d') + Packets(TakePackets(Feed(TakePackets(h).0, d, data)).1, d')
            == Packets(TakePackets(Feed(h, d, data)).1, d')
  {
    TakenPackets(h, d');
    TakenPackets(Feed(h, d, data), d');
    TakenPackets(Feed(TakePackets(h).0, d, data), d');
    DrainWithNothing(h.outbound);
    DrainWithNothing(h.inbound);
    DrainAppend(if d == OUTBOUND then h.outbound else h.inbound, data);
  }

  lemma DrainWithNothing(raw: bytes)
    ensures Drain(Drain(raw).1) == ([], Drain(raw).1)
    ensures Drain(raw).0 + Drain(Drain(raw).1).0 == Drain(raw).0
  {
    DrainConserves(raw);
  }

  /** Processing before a chunk arrives changes neither the final fields nor, together with what was
      emitted before, the packets of either direction. */
  lemma ProcessEarly(p: Parser, d: Direction, data: bytes, d': Direction)
    ensures Process(Feed(Process(p).0, d, data)).0 == Process(Feed(p, d, data)).0
    ensures Packets(Process(p).1, d') + Packets(Process(Feed(Process(p).0, d, data)).1, d')
            == Packets(Process(Feed(p, d, data)).1, d')
  {
    var h := TakeHeaders(p);
    HeadersAppend(p, d, data);
    if h.state.ESTABLISHED? {
      HeadersDone(Feed(TakePackets(h).0, d, data));
      DrainEarly(h, d, data, d');
    }
  }

  lemma HeadersDone(p: Parser)
    requires p.state.ESTABLISHED?
    ensures TakeHeaders(p) == p
  {
  }

  /** Chunking independence: fields, buffers and the packets of each direction after any chunks are
      those of a single call on all the bytes. */
  lemma {:induction false} ChunkingIndependent(chunks: seq<Chunk>, d: Direction)
    ensures Run(chunks).0 == AtOnce(Bytes(chunks, OUTBOUND), Bytes(chunks, INBOUND))
    ensures Packets(Run(chunks).1, d) == PacketsAtOnce(Bytes(chunks, OUTBOUND), Bytes(chunks, INBOUND), d)
  {
    if chunks != [] {
      var before, c := chunks[..|chunks| - 1], chunks[|chunks| - 1];
      ChunkingIndependent(before, d);
      var whole := Fresh().(outbound := Bytes(before, OUTBOUND), inbound := Bytes(before, INBOUND));
      ProcessEarly(whole, c.direction, c.data, d);
      assert Feed(whole, c.direction, c.data) ==
             Fresh().(outbound := Bytes(chunks, OUTBOUND), inbound := Bytes(chunks, INBOUND)) by {
        assert Bytes(before, OUTBOUND) + [] == Bytes(before, OUTBOUND);
        assert Bytes(before, INBOUND) + [] == Bytes(before, INBOUND);
      }
      var (p, emitted) := Run(before);
      PacketsConcat(emitted, Process(Feed(p, c.direction, c.data)).1, d);
    }
  }

  /** Two captures with the same bytes per direction agree on everything but the order across
      directions. */
  lemma SameBytesSameResult(chunks: seq<Chunk>, chunks': seq<Chunk>, d: Direction)
    requires Bytes(chunks, OUTBOUND) == Bytes(chunks', OUTBOUND)
    requires Bytes(chunks, INBOUND) == Bytes(chunks', INBOUND)
    ensures Run(chunks).0 == Run(chunks').0
    ensures Packets(Run(chunks).1, d) == Packets(Run(chunks').1, d)
  {
    ChunkingIndependent(chunks, d);
    ChunkingIndependent(chunks', d);
  }

  // ----- conservation -----

  /** The printer of a login. */
  function EncodeLogin(username: bytes, password: bytes): bytes
    requires |username| <= 0xFF && |password| <= 0xFF
  {
    [|username|] + username + [|password|] + password
  }

  lemma LoginConserves(raw: bytes)
    requires SplitLogin(raw).Some?
    ensures var l := SplitLogin(raw).value;
            |l.username| <= 0xFF && |l.password| <= 0xFF && EncodeLogin(l.username, l.password) + l.rest == raw
  {
    var n := raw[0] as int;
    var m := raw[n + 1] as int;
    assert raw == [raw[0]] + raw[1..1 + n] + [raw[1 + n]] + raw[1 + n + 1..1 + n + 1 + m] + raw[1 + n + 1 + m..];
  }

  lemma SplitUndoesEncode(username: bytes, password: bytes, rest: bytes)
    requires |username| <= 0xFF && |password| <= 0xFF
    ensures SplitLogin(EncodeLogin(username, password) + rest) == Some(Login(username, password, rest))
  {
    var raw := EncodeLogin(username, password) + rest;
    var n, m := |username|, |password|;
    assert raw[0] as int == n && raw[n + 1] as int == m;
    assert raw[1..1 + n] == username;
    assert raw[1 + n + 1..1 + n + 1 + m] == password;
    assert raw[1 + n + 1 + m..] == rest;
  }

  /** A length byte and the name, a length byte and the password, and then the rest; without as many bytes
      there is no login yet. */
  lemma LoginIsNameThenPassword(n: byte, name: bytes, m: byte, password: bytes, rest: bytes)
    requires |name| == n && |password| == m
    ensures SplitLogin([n] + name + [m] + password + rest) == Some(Login(name, password, rest))
    ensures forall i | 0 <= i < 2 + n + m :: SplitLogin(([n] + name + [m] + password)[..i]).None?
  {
    SplitUndoesEncode(name, password, rest);
    var raw := [n] + name + [m] + password;
    forall i | 0 <= i < 2 + n + m
      ensures SplitLogin(raw[..i]).None?
    {
      if 0 < i {
        assert raw[..i][0] as int == n;
        if 2 + n <= i {
          assert raw[..i][n + 1] as int == m;
        }
      }
    }
  }

  /** Until the login is complete there are no names, until the addresses are there they are zero, and no
      packet comes out. */
  lemma {:induction false} NothingKnownBefore(chunks: seq<Chunk>)
    ensures var (p, emitted) := Run(chunks);
            && (p.state == NEW ==> p.username == [] && p.password == [])
            && (p.state != ESTABLISHED ==>
                  p.ipv4 == [0, 0, 0, 0] && p.ipv6 == seq(16, _ => 0) && emitted == [])
  {
    if chunks != [] {
      NothingKnownBefore(chunks[..|chunks| - 1]);
    }
  }

  /** What one call hands out: no inbound packet comes before an outbound one. */
  lemma OutboundFirst(p: Parser)
    ensures var es := Process(p).1;
            forall i, j | 0 <= i < j < |es| && es[i].direction == INBOUND :: es[j].direction == INBOUND
  {
    var h := TakeHeaders(p);
    if h.state.ESTABLISHED? {
      var n := |Drain(h.outbound).0|;
      assert forall i | 0 <= i < |Process(p).1| :: Process(p).1[i].direction == if i < n then OUTBOUND else INBOUND;
    }
  }

  /** All outbound bytes received are accounted for by the fields, the emitted packets and the
      leftover buffer. */
  ghost predicate OutboundConserved(p: Parser, emitted: seq<bytes>, received: bytes) {
    match p.state
    case NEW => emitted == [] && p.outbound == received
    case _ =>
      && |p.username| <= 0xFF && |p.password| <= 0xFF && AllFramable(emitted)
      && EncodeLogin(p.username, p.password) + Encode(emitted) + p.outbound == received
  }

  ghost predicate InboundConserved(p: Parser, emitted: seq<bytes>, received: bytes) {
    match p.state
    case ESTABLISHED =>
      && |p.ipv4| == 4 && |p.ipv6| == 16 && AllFramable(emitted)
      && p.ipv4 + p.ipv6 + Encode(emitted) + p.inbound == received
    case _ => emitted == [] && p.inbound == received
  }

  /** Byte conservation in every reachable state. */
  lemma {:induction false} BytesConserved(chunks: seq<Chunk>)
    ensures OutboundConserved(Run(chunks).0, Packets(Run(chunks).1, OUTBOUND), Bytes(chunks, OUTBOUND))
    ensures InboundConserved(Run(chunks).0, Packets(Run(chunks).1, INBOUND), Bytes(chunks, INBOUND))
  {
    ChunkingIndependent(chunks, OUTBOUND);
    ChunkingIndependent(chunks, INBOUND);
    AtOnceConserves(Bytes(chunks, OUTBOUND), Bytes(chunks, INBOUND));
  }

  lemma AtOnceConserves(o: bytes, i: bytes)
    ensures OutboundConserved(AtOnce(o, i), PacketsAtOnce(o, i, OUTBOUND), o)
    ensures InboundConserved(AtOnce(o, i), PacketsAtOnce(o, i, INBOUND), i)
  {
    var h := TakeHeaders(Fresh().(outbound := o, inbound := i));
    TakenPackets(h, OUTBOUND);
    TakenPackets(h, INBOUND);
    HeadersConserve(o, i);
    if h.state.ESTABLISHED? {
      DrainBehind(EncodeLogin(h.username, h.password), h.outbound);
      DrainBehind(h.ipv4 + h.ipv6, h.inbound);
    }
  }

  /** The header phases alone conserve the bytes. */
  lemma HeadersConserve(o: bytes, i: bytes)
    ensures var h := TakeHeaders(Fresh().(outbound := o, inbound := i));
            OutboundConserved(h, [], o) && InboundConserved(h, [], i)
  {
    if SplitLogin(o).Some? {
      LoginConserves(o);
      var l := SplitLogin(o).value;
      var login := EncodeLogin(l.username, l.password);
      assert login + Encode([]) + l.rest == login + l.rest;
      if ADDRESS_BYTES <= |i| {
        assert i[..4] + i[4..ADDRESS_BYTES] + Encode([]) + i[ADDRESS_BYTES..] == i;
      }
    }
  }

  lemma DrainBehind(header: bytes, raw: bytes)
    ensures AllFramable(Drain(raw).0)
    ensures header + Encode(Drain(raw).0) + Drain(raw).1 == header + Encode([]) + raw
  {
    DrainConserves(raw);
    assert header + Encode(Drain(raw).0) + Drain(raw).1 == header + (Encode(Drain(raw).0) + Drain(raw).1);
    assert header + Encode([]) == header;
  }

  // ----- the parser undoes the printer -----

  /** Whatever the chunks, a printed conversation is read back: login, addresses and all packets of
      each direction, with nothing left over. */
  lemma {:induction false} ParserUndoesPrinter(chunks: seq<Chunk>, username: bytes, password: bytes, ipv4: bytes, ipv6: bytes,
                            outs: seq<bytes>, ins: seq<bytes>)
    requires |username| <= 0xFF && |password| <= 0xFF && |ipv4| == 4 && |ipv6| == 16
    requires AllFramable(outs) && AllFramable(ins)
    requires Bytes(chunks, OUTBOUND) == EncodeLogin(username, password) + Encode(outs)
    requires Bytes(chunks, INBOUND) == ipv4 + ipv6 + Encode(ins)
    ensures Run(chunks).0 == Parser(ESTABLISHED, [], [], username, password, ipv4, ipv6)
    ensures Packets(Run(chunks).1, OUTBOUND) == outs
    ensures Packets(Run(chunks).1, INBOUND) == ins
  {
    ChunkingIndependent(chunks, OUTBOUND);
    ChunkingIndependent(chunks, INBOUND);
    HeadersUndoPrinter(username, password, Encode(outs), ipv4, ipv6, Encode(ins));
    PacketsUndoPrinter(Parser(ESTABLISHED, Encode(outs), Encode(ins), username, password, ipv4, ipv6), outs, ins);
  }

  lemma HeadersUndoPrinter(username: bytes, password: bytes, o: bytes, ipv4: bytes, ipv6: bytes, i: bytes)
    requires |username| <= 0xFF && |password| <= 0xFF && |ipv4| == 4 && |ipv6| == 16
    ensures TakeHeaders(Fresh().(outbound := EncodeLogin(username, password) + o, inbound := ipv4 + ipv6 + i))
            == Parser(ESTABLISHED, o, i, username, password, ipv4, ipv6)
  {
    SplitUndoesEncode(username, password, o);
    var raw := ipv4 + ipv6 + i;
    assert raw[..4] == ipv4;
    assert raw[4..ADDRESS_BYTES] == ipv6;
    assert raw[ADDRESS_BYTES..] == i;
  }

  lemma PacketsUndoPrinter(p: Parser, outs: seq<bytes>, ins: seq<bytes>)
    requires AllFramable(outs) && AllFramable(ins)
    requires p.state.ESTABLISHED? && p.outbound == Encode(outs) && p.inbound == Encode(ins)
    ensures TakePackets(p).0 == p.(outbound := [], inbound := [])
    ensures Packets(TakePackets(p).1, OUTBOUND) == outs && Packets(TakePackets(p).1, INBOUND) == ins
  {
    DrainAllOfEncode(outs);
    DrainAllOfEncode(ins);
    TakenPackets(p, OUTBOUND);
    TakenPackets(p, INBOUND);
  }

  lemma DrainAllOfEncode(packets: seq<bytes>)
    requires AllFramable(packets)
    ensures Drain(Encode(packets)) == (packets, [])
  {
    assert Encode(packets) + [] == Encode(packets);
    DrainUndoesEncode(packets, []);
  }

  // ----- maximality -----

  /** After any chunks, once established, no complete frame waits in either buffer, and calling
      process again without new bytes does nothing. */
  lemma NothingLeftToEmit(chunks: seq<Chunk>)
    ensures Process(Run(chunks).0) == (Run(chunks).0, [])
    ensures Run(chunks).0.state.ESTABLISHED? ==>
              Incomplete(Run(chunks).0.outbound) && Incomplete(Run(chunks).0.inbound)
  {
    ChunkingIndependent(chunks, OUTBOUND);
    ProcessTwice(Fresh().(outbound := Bytes(chunks, OUTBOUND), inbound := Bytes(chunks, INBOUND)));
  }

  lemma ProcessTwice(p: Parser)
    ensures Process(Process(p).0) == (Process(p).0, [])
    ensures Process(p).0.state.ESTABLISHED? ==> Incomplete(Process(p).0.outbound) && Incomplete(Process(p).0.inbound)
  {
    var h := TakeHeaders(p);
    DrainStops(h.outbound);
    DrainStops(h.inbound);
    assert Label(OUTBOUND, []) + Label(INBOUND, []) == [];
    if !h.state.ESTABLISHED? {
      assert TakeHeaders(h) == h;
    }
  }

  lemma DrainStops(raw: bytes)
    ensures Incomplete(Drain(raw).1) && Drain(Drain(raw).1) == ([], Drain(raw).1)
  {
    DrainConserves(raw);
  }

  lemma {:induction false} BytesConcat(chunks: seq<Chunk>, more: seq<Chunk>, d: Direction)
    ensures Bytes(chunks + more, d) == Bytes(chunks, d) + Bytes(more, d)
  {
    if more == [] {
      assert chunks + more == chunks;
    } else {
      assert (chunks + more)[..|chunks + more| - 1] == chunks + more[..|more| - 1];
      BytesConcat(chunks, more[..|more| - 1], d);
    }
  }

  lemma {:induction false} RunGrows(chunks: seq<Chunk>, more: seq<Chunk>)
    ensures Run(chunks).1 <= Run(chunks + more).1
  {
    if more == [] {
      assert chunks + more == chunks;
    } else {
      assert (chunks + more)[..|chunks + more| - 1] == chunks + more[..|more| - 1];
      RunGrows(chunks, more[..|more| - 1]);
    }
  }

  lemma PacketsPrefix(e: seq<Emission>, f: seq<Emission>, d: Direction)
    requires e <= f
    ensures Packets(e, d) <= Packets(f, d)
  {
    PacketsConcat(e, f[|e|..], d);
    assert e + f[|e|..] == f;
  }

  /** On longer streams, however cut, the output only grows at its end. */
  lemma {:induction false} OutputGrows(chunks: seq<Chunk>, longer: seq<Chunk>, d: Direction)
    requires Bytes(chunks, OUTBOUND) <= Bytes(longer, OUTBOUND)
    requires Bytes(chunks, INBOUND) <= Bytes(longer, INBOUND)
    ensures Packets(Run(chunks).1, d) <= Packets(Run(longer).1, d)
  {
    var more := MissingChunks(chunks, longer);
    RunGrows(chunks, more);
    PacketsPrefix(Run(chunks).1, Run(chunks + more).1, d);
    SameBytesSameResult(chunks + more, longer, d);
  }

  lemma MissingChunks(chunks: seq<Chunk>, longer: seq<Chunk>) returns (more: seq<Chunk>)
    requires Bytes(chunks, OUTBOUND) <= Bytes(longer, OUTBOUND)
    requires Bytes(chunks, INBOUND) <= Bytes(longer, INBOUND)
    ensures Bytes(chunks + more, OUTBOUND) == Bytes(longer, OUTBOUND)
    ensures Bytes(chunks + more, INBOUND) == Bytes(longer, INBOUND)
  {
    var o := Bytes(longer, OUTBOUND)[|Bytes(chunks, OUTBOUND)|..];
    var i := Bytes(longer, INBOUND)[|Bytes(chunks, INBOUND)|..];
    more := PairOfChunks(o, i);
    BytesCompleted(chunks, more, Bytes(longer, OUTBOUND), OUTBOUND);
    BytesCompleted(chunks, more, Bytes(longer, INBOUND), INBOUND);
  }

  lemma PairOfChunks(o: bytes, i: bytes) returns (pair: seq<Chunk>)
    ensures Bytes(pair, OUTBOUND) == o && Bytes(pair, INBOUND) == i
  {
    pair := [Chunk(OUTBOUND, o)] + [Chunk(INBOUND, i)];
    BytesOfOne(Chunk(OUTBOUND, o), OUTBOUND);
    BytesOfOne(Chunk(OUTBOUND, o), INBOUND);
    BytesOfOne(Chunk(INBOUND, i), OUTBOUND);
    BytesOfOne(Chunk(INBOUND, i), INBOUND);
    BytesConcat([Chunk(OUTBOUND, o)], [Chunk(INBOUND, i)], OUTBOUND);
    BytesConcat([Chunk(OUTBOUND, o)], [Chunk(INBOUND, i)], INBOUND);
  }

  lemma BytesOfOne(c: Chunk, d: Direction)
    ensures Bytes([c], d) == Part(c, d)
  {
    assert [c][..0] == [];
    assert Bytes([c][..0], d) == [];
    assert [] + Part(c, d) == Part(c, d);
  }

  lemma BytesCompleted(chunks: seq<Chunk>, more: seq<Chunk>, target: bytes, d: Direction)
    requires Bytes(chunks, d) <= target && Bytes(more, d) == target[|Bytes(chunks, d)|..]
    ensures Bytes(chunks + more, d) == target
  {
    BytesConcat(chunks, more, d);
  }
}
