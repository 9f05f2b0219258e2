// The messages of the payment protocol and their length-prefixed framing.
module Protocol {
  import opened Base

  type Byte = x: int | 0 <= x < 256

  const FRAME_LIMIT: nat := 0x1_0000_0000

  datatype Message =
    | AddrRequest(sats: nat)
    | AddrResponse(address: string, index: nat)
    | Notify(txid: string, sats: nat)
    | Chat(text: string)

  /** The serialisation of message bodies. */
  datatype Codec = Codec(body: Message -> seq<Byte>, parse: seq<Byte> -> Option<Message>) {
    ghost predicate RoundTrips() {
      forall m :: parse(body(m)) == Some(m)
    }
  }

  function Be32(n: nat): seq<Byte>
    requires n < FRAME_LIMIT
  {
    [n / 0x100_0000, n / 0x1_0000 % 256, n / 256 % 256, n % 256]
  }

  function FromBe32(b: seq<Byte>): (n: nat)
    requires |b| == 4
    ensures n < FRAME_LIMIT
  {
    b[0] as int * 0x100_0000 + b[1] as int * 0x1_0000 + b[2] as int * 256 + b[3] as int
  }

  /** The length is cast to 32 bits, so a longer body gets a wrapped-around prefix. */
  function Encode(c: Codec, m: Message): seq<Byte> {
    Be32(|c.body(m)| % FRAME_LIMIT) + c.body(m)
  }

  /** One frame off the front of buf and how many bytes it took, or None if buf does
      not yet hold a full frame or the frame does not parse. */
  function Decode(c: Codec, buf: seq<Byte>): Option<(Message, nat)> {
    if |buf| < 4 then None
    else
      var end := 4 + FromBe32(buf[..4]);
      if |buf| < end then None
      else match c.parse(buf[4..end])
           case Some(m) => Some((m, end))
           case None => None
  }

  function DecodeAll(c: Codec, buf: seq<Byte>): seq<Message>
    decreases |buf|
  {
    match Decode(c, buf)
    case Some(frame) => [frame.0] + DecodeAll(c, buf[frame.1..])
    case None => []
  }

  function EncodeAll(c: Codec, ms: seq<Message>): seq<Byte> {
    if ms == [] then [] else Encode(c, ms[0]) + EncodeAll(c, ms[1..])
  }

  lemma Be32RoundTrip(n: nat)
    requires n < FRAME_LIMIT
    ensures FromBe32(Be32(n)) == n
  {
    var high := n / 256;
    assert n == high * 256 + n % 256;
    assert high == high / 256 * 256 + high % 256 && high / 256 == n / 0x1_0000;
    assert n / 0x1_0000 == n / 0x100_0000 * 256 + n / 0x1_0000 % 256;
  }

  /** On the wire a frame is the length of its body, highest byte first, and the body. */
  lemma FrameLayout(c: Codec, m: Message)
    requires |c.body(m)| < 0x1_0000_0000
    ensures var frame := Encode(c, m);
            && |frame| == 4 + |c.body(m)| && frame[4..] == c.body(m)
            && frame[0] as int * 0x100_0000 + frame[1] as int * 0x1_0000 + frame[2] as int * 256 + frame[3] as int
               == |c.body(m)|
  {
    var frame, prefix := Encode(c, m), Be32(|c.body(m)|);
    Be32RoundTrip(|c.body(m)|);
    assert forall i :: 0 <= i < 4 ==> frame[i] == prefix[i];
    assert frame[4..] == c.body(m);
  }

  /** A frame decodes to its message, whatever follows it, exactly when its body is
      shorter than 2^32 bytes. */
  lemma FrameRoundTrip(c: Codec, m: Message, rest: seq<Byte>)
    requires c.RoundTrips()
    ensures Decode(c, Encode(c, m) + rest) == Some((m, |Encode(c, m)|)) <==> |c.body(m)| < FRAME_LIMIT
  {
    var buf := Encode(c, m) + rest;
    Be32RoundTrip(|c.body(m)| % FRAME_LIMIT);
    assert buf[..4] == Be32(|c.body(m)| % FRAME_LIMIT);
    if |c.body(m)| < FRAME_LIMIT {
      assert buf[4..4 + |c.body(m)|] == c.body(m);
    }
  }

  /** Every strict prefix of a frame asks for more bytes. */
  lemma PartialFrame(c: Codec, m: Message, k: nat)
    requires |c.body(m)| < FRAME_LIMIT && k < |Encode(c, m)|
    ensures Decode(c, Encode(c, m)[..k]) == None
  {
    if k >= 4 {
      Be32RoundTrip(|c.body(m)|);
      assert Encode(c, m)[..k][..4] == Be32(|c.body(m)|);
    }
  }

  /** A decoded frame is not affected by what follows it. */
  lemma TrailingBytes(c: Codec, buf: seq<Byte>, rest: seq<Byte>)
    requires Decode(c, buf).Some?
    ensures Decode(c, buf + rest) == Decode(c, buf)
    ensures Decode(c, buf).value.1 <= |buf|
  {
    var end := Decode(c, buf).value.1;
    assert (buf + rest)[..4] == buf[..4];
    assert (buf + rest)[4..end] == buf[4..end];
  }

  lemma {:induction false} StreamRoundTrip(c: Codec, ms: seq<Message>)
    requires c.RoundTrips() && forall m :: m in ms ==> |c.body(m)| < FRAME_LIMIT
    ensures DecodeAll(c, EncodeAll(c, ms)) == ms
  {
    if ms != [] {
      var frame, rest := Encode(c, ms[0]), EncodeAll(c, ms[1..]);
      FrameRoundTrip(c, ms[0], rest);
      assert (frame + rest)[|frame|..] == rest;
      StreamRoundTrip(c, ms[1..]);
    }
  }

  function Flatten(chunks: seq<seq<Byte>>): seq<Byte> {
    if chunks == [] then [] else chunks[0] + Flatten(chunks[1..])
  }

  /** A byte stream delivered in chunks of the network's choosing; the last read,
      after all chunks, reports that the peer has gone. */
  class Wire {
    const codec: Codec
    var buf: seq<Byte>
    var chunks: seq<seq<Byte>>

    constructor (codec: Codec, chunks: seq<seq<Byte>>)
      ensures this.codec == codec && Stream() == Flatten(chunks)
    {
      this.codec, this.buf, this.chunks := codec, [], chunks;
      new;
      assert Stream() == Flatten(chunks);
    }

    ghost function Stream(): seq<Byte>
      reads this
    {
      buf + Flatten(chunks)
    }

    /** The next message of the stream, however it was cut into chunks. */
    method Recv() returns (r: Option<Message>)
      modifies this
      ensures match Decode(codec, old(Stream()))
              case Some(frame) =>
                frame.1 <= |old(Stream())| && r == Some(frame.0) && Stream() == old(Stream())[frame.1..]
              case None => r == None && Stream() == old(Stream())
    {
      while true
        invariant Stream() == old(Stream())
        decreases |chunks|
      {
        var frame := Decode(codec, buf);
        if frame.Some? {
          TrailingBytes(codec, buf, Flatten(chunks));
          ghost var all := Stream();
          buf := buf[frame.value.1..];
          assert Stream() == all[frame.value.1..];
          return Some(frame.value.0);
        }
        if chunks == [] {
          assert Stream() == buf;
          return None;
        }
        ghost var all := Stream();
        buf, chunks := buf + chunks[0], chunks[1..];
        assert Stream() == all;
      }
    }

    /** Receiving until the peer has gone yields the messages of the whole stream. */
    method Drain() returns (ms: seq<Message>)
      modifies this
      ensures ms == DecodeAll(codec, old(Stream()))
    {
      ms := [];
      while true
        invariant ms + DecodeAll(codec, Stream()) == DecodeAll(codec, old(Stream()))
        decreases |Stream()|
      {
        var m := Recv();
        if m.None? {
          return;
        }
        ms := ms + [m.value];
      }
    }
  }
}
