/**
Length-prefixed frames over one byte stream (internal/transport/transport.go:28-93).
*/
module Transport {
  import opened Bytes
  import opened Framing

  const HEADER_SLACK: int := 512

  /** The two caps of a transport. */
  datatype Caps = Caps(maxFrameBytes: int, maxPayload: int)

  /** New: zero or less selects 8 MB; the products are 64-bit. */
  function NewCaps(maxActivationMB: int64): Caps {
    var mp := Wrap64((if maxActivationMB <= 0 then 8 else maxActivationMB) * 0x10_0000);
    Caps(Wrap64(mp + HEADER_SLACK), mp)
  }

  /** What sendFrame writes; the length is cut to 32 bits. */
  function FrameBytes(frame: seq<byte>): seq<byte> {
    Put32(ToUint32(|frame|)) + frame
  }

  datatype Received<T> = Received(value: T, rest: seq<byte>)

  function RecvFrame(wire: seq<byte>, caps: Caps): Result<Received<seq<byte>>> {
    if |wire| < 4 then Err
    else
      var n: int := Get32(wire);
      if n > caps.maxFrameBytes || |wire| < 4 + n then Err
      else Ok(Received(wire[4..4 + n], wire[4 + n..]))
  }

  function ActivationBytes(h: Header, payload: seq<byte>): Result<seq<byte>> {
    if Encode(h, payload).Ok? then Ok(FrameBytes(Encode(h, payload).value)) else Err
  }

  function RecvActivation(wire: seq<byte>, caps: Caps): Result<Received<Activation>> {
    var f := RecvFrame(wire, caps);
    if f.Err? then Err
    else
      var a := Decode(f.value.value, caps.maxPayload);
      if a.Err? then Err else Ok(Received(a.value, f.value.rest))
  }

  // ---------------------------------------------------------------- round trips

  /** A frame comes back intact exactly when its length survives the 32-bit prefix and the cap. */
  lemma FrameRoundTrip(frame: seq<byte>, rest: seq<byte>, caps: Caps)
    ensures RecvFrame(FrameBytes(frame) + rest, caps) == Ok(Received(frame, rest))
            <==> |frame| < TWO32 && |frame| <= caps.maxFrameBytes
  {
    var wire := FrameBytes(frame) + rest;
    var n := ToUint32(|frame|);
    assert wire == Put32(n) + (frame + rest);
    Get32Put(n, frame + rest);
    assert wire[4..] == frame + rest;
    if |frame| < TWO32 {
      assert wire[4..4 + |frame|] == frame && wire[4 + |frame|..] == rest;
    } else {
      assert n < |frame|;
    }
  }

  /** The length prefix, most significant byte first, and then the frame. */
  lemma FrameBytesMean(frame: seq<byte>)
    requires |frame| < TWO32
    ensures var w := FrameBytes(frame);
            && |w| == 4 + |frame| && w[4..] == frame
            && 16777216 * (w[0] as int) + 65536 * (w[1] as int) + 256 * (w[2] as int) + w[3] == |frame|
  {
    hide Put32, Get32;
    var w := FrameBytes(frame);
    Get32Put(|frame|, frame);
    Get32Means(w);
  }

  /** The payload cap is a whole number of megabytes, so the slack never overflows. */
  lemma CapsLeaveRoom(maxActivationMB: int64)
    ensures var caps := NewCaps(maxActivationMB);
            caps.maxFrameBytes == caps.maxPayload + HEADER_SLACK && (caps.maxPayload > 0 ==>
                caps.maxPayload >= 0x10_0000)
    ensures 0 < maxActivationMB < 0x800_0000_0000 ==> NewCaps(maxActivationMB).maxPayload == maxActivationMB * 1048576
    ensures maxActivationMB <= 0 ==> NewCaps(maxActivationMB) == Caps(8389120, 8388608)
  {
    var mb := if maxActivationMB <= 0 then 8 else maxActivationMB;
    var q, r := mb / 0x1000_0000_0000, mb % 0x1000_0000_0000;
    assert mb * 0x10_0000 == q * TWO64 + r * 0x10_0000;
    assert (mb * 0x10_0000) % TWO64 == r * 0x10_0000;
  }

  /** Any payload within the cap travels in a frame within the receiver's frame cap. */
  lemma FrameFitsCap(h: Header, payload: seq<byte>, maxActivationMB: int64)
    requires WellFormed(h, payload) && |payload| <= NewCaps(maxActivationMB).maxPayload
    ensures |Layout(h, payload)| <= NewCaps(maxActivationMB).maxFrameBytes
  {
    CapsLeaveRoom(maxActivationMB);
    hide Layout, NewCaps;
  }

  /** One activation sent is one activation received, and the rest of the stream is untouched. */
  lemma ActivationRoundTrip(h: Header, payload: seq<byte>, rest: seq<byte>, caps: Caps)
    requires WellFormed(h, payload) && |payload| <= caps.maxPayload
    requires |Layout(h, payload)| <= caps.maxFrameBytes && |Layout(h, payload)| < TWO32
    ensures ActivationBytes(h, payload).Ok?
    ensures RecvActivation(ActivationBytes(h, payload).value + rest, caps) == Ok(Received(Activation(h, payload), rest))
  {
    hide Layout, Decode;
    FrameRoundTrip(Layout(h, payload), rest, caps);
    DecodeLayout(h, payload, caps.maxPayload);
  }

  /** Whatever was received is exactly what sending it again would put on the wire. */
  lemma ReceivedWasSent(wire: seq<byte>, caps: Caps)
    requires RecvActivation(wire, caps).Ok?
    ensures var r := RecvActivation(wire, caps).value;
            && ActivationBytes(r.value.header, r.value.payload).Ok?
            && wire == ActivationBytes(r.value.header, r.value.payload).value + r.rest
            && |r.value.payload| <= caps.maxPayload
  {
    hide Layout, Decode;
    var frame := RecvFrame(wire, caps).value.value;
    LayoutDecode(frame, caps.maxPayload);
    Put32Get(wire);
    assert wire == wire[..4] + (wire[4..4 + |frame|] + wire[4 + |frame|..]);
  }

  // ---------------------------------------------------------------- the connection

  /** TcpTransport over a stream: writes extend it, reads consume it. */
  class TcpTransport {
    var wire: seq<byte>
    const maxFrameBytes: int
    const maxPayload: int

    constructor (maxActivationMB: int64)
      ensures wire == [] && Caps(maxFrameBytes, maxPayload) == NewCaps(maxActivationMB)
    {
      wire := [];
      var mb: int := maxActivationMB;
      if mb <= 0 {
        mb := 8;
      }
      var mp := Wrap64(mb * 1024 * 1024);
      maxFrameBytes, maxPayload := Wrap64(mp + HEADER_SLACK), mp;
    }

    method SendActivation(h: Header, payload: seq<byte>) returns (ok: bool)
      requires |payload| < TWO63
      modifies this
      ensures ok <==> ActivationBytes(h, payload).Ok?
      ensures wire == old(wire) + if ok then ActivationBytes(h, payload).value else []
    {
      var frame := EncodeActivation(h, payload);
      if frame.Err? {
        return false;
      }
      wire := wire + (Put32(ToUint32(|frame.value|)) + frame.value);
      return true;
    }

    method RecvFrameBytes() returns (r: Result<seq<byte>>)
      modifies this
      ensures var f := RecvFrame(old(wire), Caps(maxFrameBytes, maxPayload));
              (f.Ok? ==> r == Ok(f.value.value) && wire == f.value.rest) && (f.Err? ==> r.Err?)
    {
      if |wire| < 4 {
        return Err;
      }
      var n: int := Get32(wire);
      wire := wire[4..];
      if n > maxFrameBytes || |wire| < n {
        return Err;
      }
      assert old(wire)[4..][..n] == old(wire)[4..4 + n] && old(wire)[4..][n..] == old(wire)[4 + n..];
      r := Ok(wire[..n]);
      wire := wire[n..];
    }

    method RecvNext() returns (r: Result<Activation>)
      modifies this
      ensures var f := RecvActivation(old(wire), Caps(maxFrameBytes, maxPayload));
              (f.Ok? ==> r == Ok(f.value.value) && wire == f.value.rest) && (f.Err? ==> r.Err?)
    {
      var frame := RecvFrameBytes();
      if frame.Err? {
        return Err;
      }
      r := DecodeActivation(frame.value, maxPayload);
    }
  }
}
