/** The length-prefixed framing of the VPN stream: a printer, the extractor, and their laws. */
module Frames {
  import opened Wrappers

  type byte = x: int | 0 <= x < 256
  type bytes = seq<byte>

  /** What fits behind a two-byte length. */
  predicate Framable(packet: bytes) {
    |packet| <= 0xFFFF
  }

  ghost predicate AllFramable(packets: seq<bytes>) {
    forall i | 0 <= i < |packets| :: Framable(packets[i])
  }

  /** int.from_bytes(raw[:2]): big-endian. */
  function Length(raw: bytes): nat
    requires 2 <= |raw|
  {
    (raw[0] as int) * 256 + raw[1] as int
  }

  /** Stream._extract_one */
  function ExtractOne(raw: bytes): (Option<bytes>, bytes) {
    if |raw| < 2 then (None, raw)
    else if |raw| < 2 + Length(raw) then (None, raw)
    else (Some(raw[2..2 + Length(raw)]), raw[2 + Length(raw)..])
  }

  /** Two bytes, high before low, give the length of the packet behind them; without as many bytes there is
      no packet yet. */
  lemma LengthIsBigEndian(high: byte, low: byte, behind: bytes)
    ensures var n := 256 * high + low;
            ExtractOne([high, low] + behind) ==
            if |behind| < n then (None, [high, low] + behind) else (Some(behind[..n]), behind[n..])
    ensures ExtractOne([high]) == (None, [high]) && ExtractOne([]) == (None, [])
  {
    var raw := [high, low] + behind;
    assert Length(raw) == 256 * high + low;
    if Length(raw) <= |behind| {
      assert raw[2..2 + Length(raw)] == behind[..Length(raw)] && raw[2 + Length(raw)..] == behind[Length(raw)..];
    }
  }

  /** No complete frame is at the front. */
  predicate Incomplete(raw: bytes) {
    ExtractOne(raw).0.None?
  }

  /** The printer for one packet. */
  function Frame(packet: bytes): (raw: bytes)
    requires Framable(packet)
    ensures |raw| == 2 + |packet|
  {
    [|packet| / 256, |packet| % 256] + packet
  }

  function Encode(packets: seq<bytes>): bytes
    requires AllFramable(packets)
  {
    if packets == [] then [] else Frame(packets[0]) + Encode(packets[1..])
  }

  lemma ExtractUndoesFrame(packet: bytes, rest: bytes)
    requires Framable(packet)
    ensures ExtractOne(Frame(packet) + rest) == (Some(packet), rest)
  {
    var raw := Frame(packet) + rest;
    assert Length(raw) == |packet|;
    assert raw[2..2 + |packet|] == packet;
  }

  lemma FrameUndoesExtract(raw: bytes)
    requires !Incomplete(raw)
    ensures Framable(ExtractOne(raw).0.value)
    ensures Frame(ExtractOne(raw).0.value) + ExtractOne(raw).1 == raw
  {
    var n := Length(raw);
    assert n / 256 == raw[0] && n % 256 == raw[1];
    assert raw == raw[..2] + raw[2..2 + n] + raw[2 + n..];
  }

  /** All complete frames at the front, and what remains: the `while True` loops of process. */
  function Drain(raw: bytes): (seq<bytes>, bytes)
    decreases |raw|
  {
    var (packet, rest) := ExtractOne(raw);
    match packet
    case None => ([], raw)
    case Some(p) => var (ps, tail) := Drain(rest); ([p] + ps, tail)
  }

  /** Conservation: printing what was drained, and adding the remainder, gives all bytes back. */
  lemma {:induction false} DrainConserves(raw: bytes)
    ensures AllFramable(Drain(raw).0)
    ensures Encode(Drain(raw).0) + Drain(raw).1 == raw
    ensures Incomplete(Drain(raw).1)
    decreases |raw|
  {
    if !Incomplete(raw) {
      var p, rest := ExtractOne(raw).0.value, ExtractOne(raw).1;
      FrameUndoesExtract(raw);
      DrainConserves(rest);
      assert Drain(raw).0[1..] == Drain(rest).0;
      assert raw == Frame(p) + (Encode(Drain(rest).0) + Drain(rest).1);
      assert raw == (Frame(p) + Encode(Drain(rest).0)) + Drain(rest).1;
    }
  }

  /** There is only one way to cut bytes into packets and a remainder without a complete frame. */
  lemma {:induction false} DrainUndoesEncode(packets: seq<bytes>, rest: bytes)
    requires AllFramable(packets) && Incomplete(rest)
    ensures Drain(Encode(packets) + rest) == (packets, rest)
  {
    if packets == [] {
      assert Encode(packets) + rest == rest;
    } else {
      var tail := Encode(packets[1..]) + rest;
      assert Encode(packets) + rest == Frame(packets[0]) + tail;
      ExtractUndoesFrame(packets[0], tail);
      DrainUndoesEncode(packets[1..], rest);
      assert packets == [packets[0]] + packets[1..];
    }
  }

  lemma ExtractAppend(raw: bytes, more: bytes)
    requires !Incomplete(raw)
    ensures ExtractOne(raw + more) == (ExtractOne(raw).0, ExtractOne(raw).1 + more)
  {
    var n := Length(raw);
    assert Length(raw + more) == n;
    assert (raw + more)[2..2 + n] == raw[2..2 + n];
    assert (raw + more)[2 + n..] == raw[2 + n..] + more;
  }

  /** Draining early loses nothing: later bytes continue where the remainder stopped. */
  lemma {:induction false} DrainAppend(raw: bytes, more: bytes)
    ensures Drain(raw + more).0 == Drain(raw).0 + Drain(Drain(raw).1 + more).0
    ensures Drain(raw + more).1 == Drain(Drain(raw).1 + more).1
    decreases |raw|
  {
    if !Incomplete(raw) {
      ExtractAppend(raw, more);
      DrainAppend(ExtractOne(raw).1, more);
    }
  }
}
