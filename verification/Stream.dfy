/** The stream object itself: process, the generator run to its end, works on the fields in place. */
module StreamObject {
  import opened Wrappers
  import opened Frames
  import opened StreamParser

  class Stream {
    var outbound: bytes
    var inbound: bytes
    var state: State
    var seen: bool  // the client data has been announced
    var username: bytes
    var password: bytes
    var ipv4: bytes
    var ipv6: bytes

    ghost function View(): Parser
      reads this
    {
      Parser(state, outbound, inbound, username, password, ipv4, ipv6)
    }

    constructor (payload: bytes)
      ensures View() == Feed(Fresh(), OUTBOUND, payload) && !seen
    {
      outbound, inbound, state, seen := payload, [], NEW, false;
      username, password := [], [];
      ipv4, ipv6 := Fresh().ipv4, Fresh().ipv6;
      new;
      assert [] + payload == payload;
    }

    /** A payload arrives from the initiator or from the other side. */
    method Receive(d: Direction, payload: bytes)
      modifies this`outbound, this`inbound
      ensures View() == Feed(old(View()), d, payload)
    {
      if d == OUTBOUND {
        outbound := outbound + payload;
      } else {
        inbound := inbound + payload;
      }
    }

    method Process() returns (emitted: seq<Emission>)
      modifies this
      ensures (View(), emitted) == StreamParser.Process(old(View())) && seen == old(seen)
    {
      emitted := [];
      if state == NEW {
        if outbound == [] {
          return;
        }
        var nameLength := outbound[0] as int;
        if |outbound| < 1 + nameLength + 1 {
          return;
        }
        var passLength := outbound[nameLength + 1] as int;
        if |outbound| < 1 + nameLength + 1 + passLength {
          return;
        }
        username := outbound[1..1 + nameLength];
        password := outbound[1 + nameLength + 1..1 + nameLength + 1 + passLength];
        outbound := outbound[1 + nameLength + 1 + passLength..];
        state := PARTIAL;
      }
      assert View() == TakeLogin(old(View()));
      if state == PARTIAL {
        if |inbound| < 4 + 16 {
          return;
        }
        ipv4 := inbound[..4];
        ipv6 := inbound[4..4 + 16];
        inbound := inbound[4 + 16..];
        state := ESTABLISHED;
      }
      assert View() == TakeAddresses(TakeLogin(old(View())));
      if state == ESTABLISHED {
        var outs := DrainOutbound();
        var ins := DrainInbound();
        emitted := outs + ins;
      }
    }

    /** The first `while True` loop of an established stream. */
    method DrainOutbound() returns (emitted: seq<Emission>)
      modifies this`outbound
      ensures (emitted, outbound) == (Label(OUTBOUND, old(Drain(outbound).0)), old(Drain(outbound).1))
    {
      emitted := [];
      ghost var all := Label(OUTBOUND, Drain(outbound).0);
      while true
        invariant emitted + Label(OUTBOUND, Drain(outbound).0) == all
        invariant Drain(outbound).1 == old(Drain(outbound).1)
        decreases |outbound|
      {
        LabelDrain(OUTBOUND, outbound);
        var (packet, rest) := ExtractOne(outbound);
        outbound := rest;
        if packet == None {
          assert emitted + [] == emitted;
          break;
        }
        emitted := emitted + [Emission(OUTBOUND, packet.value)];
      }
    }

    /** The second `while True` loop of an established stream. */
    method DrainInbound() returns (emitted: seq<Emission>)
      modifies this`inbound
      ensures (emitted, inbound) == (Label(INBOUND, old(Drain(inbound).0)), old(Drain(inbound).1))
    {
      emitted := [];
      ghost var all := Label(INBOUND, Drain(inbound).0);
      while true
        invariant emitted + Label(INBOUND, Drain(inbound).0) == all
        invariant Drain(inbound).1 == old(Drain(inbound).1)
        decreases |inbound|
      {
        LabelDrain(INBOUND, inbound);
        var (packet, rest) := ExtractOne(inbound);
        inbound := rest;
        if packet == None {
          assert emitted + [] == emitted;
          break;
        }
        emitted := emitted + [Emission(INBOUND, packet.value)];
      }
    }
  }
}
