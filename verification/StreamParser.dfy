/** The incremental parser of one VPN connection: Stream.process over two byte buffers. */
module StreamParser {
  import opened Wrappers
  import opened Frames

  datatype Direction = INBOUND | OUTBOUND

  datatype State = NEW | PARTIAL | ESTABLISHED

  datatype Emission = Emission(direction: Direction, packet: bytes)

  const ADDRESS_BYTES := 4 + 16

  /** The fields of a stream that process reads and writes. */
  datatype Parser = Parser(state: State, outbound: bytes, inbound: bytes,
                           username: bytes, password: bytes, ipv4: bytes, ipv6: bytes)

  /** A stream before its first byte. */
  function Fresh(): Parser {
    Parser(NEW, [], [], [], [], [0, 0, 0, 0], [0, 0, 0, 0, 0, 0, 0, 0, 0, 0, 0, 0, 0, 0, 0, 0])
  }

  /** Appending a payload to the buffer of its direction. */
  function Feed(p: Parser, d: Direction, data: bytes): Parser {
    match d
    case OUTBOUND => p.(outbound := p.outbound + data)
    case INBOUND => p.(inbound := p.inbound + data)
  }

  // ----- what one call of process does -----

  datatype Login = Login(username: bytes, password: bytes, rest: bytes)

  /** The login at the front of the outbound bytes: two fields with one-byte lengths. */
  function SplitLogin(raw: bytes): Option<Login> {
    if raw == [] then None
    else
      var n := raw[0] as int;
      if |raw| < 1 + n + 1 then None
      else
      var m := raw[n + 1] as int;
      if |raw| < 1 + n + 1 + m then None
      else Some(Login(raw[1..1 + n], raw[1 + n + 1..1 + n + 1 + m], raw[1 + n + 1 + m..]))
  }

  function TakeLogin(p: Parser): Parser {
    if p.state.NEW? then
      match SplitLogin(p.outbound)
      case None => p
      case Some(l) => p.(username := l.username, password := l.password, outbound := l.rest, state := PARTIAL)
    else p
  }

  function TakeAddresses(p: Parser): Parser {
    if p.state.PARTIAL? && ADDRESS_BYTES <= |p.inbound| then
      p.(ipv4 := p.inbound[..4], ipv6 := p.inbound[4..ADDRESS_BYTES],
         inbound := p.inbound[ADDRESS_BYTES..], state := ESTABLISHED)
    else p
  }

  function Label(d: Direction, packets: seq<bytes>): seq<Emission> {
    seq(|packets|, i requires 0 <= i < |packets| => Emission(d, packets[i]))
  }

  /** One round of a drain loop, on labelled packets. */
  lemma LabelDrain(d: Direction, raw: bytes)
    ensures Incomplete(raw) ==> Label(d, Drain(raw).0) == [] && Drain(raw).1 == raw
    ensures !Incomplete(raw) ==>
              && Label(d, Drain(raw).0) == [Emission(d, ExtractOne(raw).0.value)] + Label(d, Drain(ExtractOne(raw).1).0)
              && Drain(raw).1 == Drain(ExtractOne(raw).1).1
  {
    if !Incomplete(raw) {
      var p, rest := ExtractOne(raw).0.value, ExtractOne(raw).1;
      assert Drain(raw) == ([p] + Drain(rest).0, Drain(rest).1);
      LabelCons(d, p, Drain(rest).0);
    }
  }

  lemma LabelCons(d: Direction, p: bytes, ps: seq<bytes>)
    ensures Label(d, [p] + ps) == [Emission(d, p)] + Label(d, ps)
  {
  }

  function TakePackets(p: Parser): (Parser, seq<Emission>) {
    if p.state.ESTABLISHED? then
      var (outs, outRest) := Drain(p.outbound);
      var (ins, inRest) := Drain(p.inbound);
      (p.(outbound := outRest, inbound := inRest), Label(OUTBOUND, outs) + Label(INBOUND, ins))
    else (p, [])
  }

  function Process(p: Parser): (Parser, seq<Emission>) {
    TakePackets(TakeAddresses(TakeLogin(p)))
  }
}
