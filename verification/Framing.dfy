/**
 Packet framing (MySQL Client/Server Protocol, section 14.1.2): a message is cut into packets of a 4-byte
 header and at most 2^24-1 bytes, and read back under any arrival pattern.
 */
module Framing {
  import opened Common

  type byte = x: int | 0 <= x < 256

  const MAX_PAYLOAD: nat := 0xFF_FF_FF
  const HEADER_LEN: nat := 4

  datatype Packet = Packet(seqId: byte, payload: seq<byte>) {
    /** A full packet says that its message goes on. */
    predicate Continues() {
      |payload| == MAX_PAYLOAD
    }
  }

  datatype Message = Message(firstSeq: byte, packetCount: nat, payload: seq<byte>)

  function Next(id: byte, n: nat): byte {
    (id + n) % 256
  }

  function PacketCount(length: nat): (n: nat)
    ensures 0 < n
  {
    length / MAX_PAYLOAD + 1
  }

  // ----- The wire format ---------------------------------------------------------------------------------

  function LengthBytes(n: nat): seq<byte>
    requires n <= MAX_PAYLOAD
  {
    [n % 256, n / 256 % 256, n / 65536]
  }

  function Encode(packet: Packet): seq<byte>
    requires |packet.payload| <= MAX_PAYLOAD
  {
    LengthBytes(|packet.payload|) + [packet.seqId] + packet.payload
  }

  predicate Fit(packets: seq<Packet>) {
    forall i :: 0 <= i < |packets| ==> |packets[i].payload| <= MAX_PAYLOAD
  }

  function EncodeAll(packets: seq<Packet>): seq<byte>
    requires Fit(packets)
  {
    if packets == [] then [] else Encode(packets[0]) + EncodeAll(packets[1..])
  }

  /** The packets of a message: every one but the last is full, and the last is not. */
  function Split(firstSeq: byte, payload: seq<byte>): (r: seq<Packet>)
    ensures Fit(r) && |r| == PacketCount(|payload|)
    decreases |payload|
  {
    if |payload| < MAX_PAYLOAD then [Packet(firstSeq, payload)]
    else [Packet(firstSeq, payload[..MAX_PAYLOAD])] + Split(Next(firstSeq, 1), payload[MAX_PAYLOAD..])
  }

  /** The length announced by a header. */
  function Announced(s: seq<byte>): (n: nat)
    requires |s| >= HEADER_LEN
    ensures n <= MAX_PAYLOAD
  {
    (s[0] as int) + 256 * (s[1] as int) + 65536 * (s[2] as int)
  }

  /** The first packet of a stream, if it has arrived whole. */
  function Front(s: seq<byte>): (r: Option<Packet>)
    ensures r.Some? ==> |r.value.payload| <= MAX_PAYLOAD && HEADER_LEN + |r.value.payload| <= |s|
  {
    if |s| >= HEADER_LEN && |s| >= HEADER_LEN + Announced(s) then
      Some(Packet(s[3], s[HEADER_LEN..HEADER_LEN + Announced(s)]))
    else None
  }

  function Behind(s: seq<byte>): seq<byte>
    requires Front(s).Some?
  {
    s[HEADER_LEN + |Front(s).value.payload|..]
  }

  /** Every whole packet of a stream, in order. */
  function Packets(s: seq<byte>): (r: seq<Packet>)
    ensures Fit(r)
    decreases |s|
  {
    if Front(s).None? then [] else [Front(s).value] + Packets(Behind(s))
  }

  // ----- Reading back what was written -------------------------------------------------------------------

  lemma {:induction false} FrontOfEncoded(packet: Packet, rest: seq<byte>)
    requires |packet.payload| <= MAX_PAYLOAD
    ensures Front(Encode(packet) + rest) == Some(packet) && Behind(Encode(packet) + rest) == rest
  {
    var s := Encode(packet) + rest;
    var n := |packet.payload|;
    assert s[0] == n % 256 && s[1] == n / 256 % 256 && s[2] == n / 65536 && s[3] == packet.seqId;
    assert n == n % 256 + 256 * (n / 256 % 256) + 65536 * (n / 65536);
    assert s[HEADER_LEN..HEADER_LEN + n] == packet.payload;
  }

  lemma {:induction false} FrontIsEncoded(s: seq<byte>)
    requires Front(s).Some?
    ensures s == Encode(Front(s).value) + Behind(s)
  {
    var n := Announced(s);
    var low := (s[0] as int) + 256 * (s[1] as int);
    assert n / 65536 == s[2] && n % 65536 == low;
    assert n % 256 == s[0] && n / 256 % 256 == s[1];
    assert s[..HEADER_LEN] == LengthBytes(n) + [s[3]];
    assert s == s[..HEADER_LEN] + s[HEADER_LEN..HEADER_LEN + n] + s[HEADER_LEN + n..];
  }

  lemma {:induction false} PacketsUnfold(packet: Packet, rest: seq<byte>)
    requires |packet.payload| <= MAX_PAYLOAD
    ensures Packets(Encode(packet) + rest) == [packet] + Packets(rest)
  {
    FrontOfEncoded(packet, rest);
  }

  lemma {:induction false} EncodeFront(packets: seq<Packet>, rest: seq<byte>)
    requires Fit(packets) && packets != []
    ensures EncodeAll(packets) + rest == Encode(packets[0]) + (EncodeAll(packets[1..]) + rest)
  {
  }

  lemma {:induction false} Rejoin<T>(a: seq<T>, b: seq<T>)
    requires a != []
    ensures [a[0]] + (a[1..] + b) == a + b
  {
  }

  lemma {:induction false} PacketsOfEncoded(packets: seq<Packet>, rest: seq<byte>)
    requires Fit(packets)
    ensures Packets(EncodeAll(packets) + rest) == packets + Packets(rest)
    decreases |packets|
  {
    if packets == [] {
      assert EncodeAll(packets) + rest == rest;
      assert packets + Packets(rest) == Packets(rest);
    } else {
      PacketsOfEncoded(packets[1..], rest);
      PacketsUnfold(packets[0], EncodeAll(packets[1..]) + rest);
      EncodeFront(packets, rest);
      Rejoin(packets, Packets(rest));
    }
  }

  /** How a read of a message ends. */
  datatype Read = Whole(message: Message, rest: seq<byte>) | Closed | Broken

  /** The payload and the number of packets of the message at the front, or `None` if it breaks off. */
  function Gather(s: seq<byte>): (r: Option<(seq<byte>, nat, seq<byte>)>)
    ensures r.Some? ==> |r.value.2| < |s|
    decreases |s|
  {
    if Front(s).None? then None
    else if !Front(s).value.Continues() then Some((Front(s).value.payload, 1, Behind(s)))
    else
      var later := Gather(Behind(s));
      if later.None? then None
      else Some((Front(s).value.payload + later.value.0, 1 + later.value.1, later.value.2))
  }

  function ReadMessage(s: seq<byte>): Read {
    if s == [] then Closed
    else if Gather(s).None? then Broken
    else Whole(Message(Front(s).value.seqId, Gather(s).value.1, Gather(s).value.0), Gather(s).value.2)
  }

  lemma {:induction false} GatherSplit(firstSeq: byte, payload: seq<byte>, rest: seq<byte>)
    ensures Gather(EncodeAll(Split(firstSeq, payload)) + rest) == Some((payload, PacketCount(|payload|), rest))
    decreases |payload|
  {
    var packets := Split(firstSeq, payload);
    var tail := EncodeAll(packets[1..]) + rest;
    FrontOfEncoded(packets[0], tail);
    assert EncodeAll(packets) + rest == Encode(packets[0]) + tail;
    if |payload| < MAX_PAYLOAD {
      assert packets[1..] == [] && tail == rest;
    } else {
      assert packets[1..] == Split(Next(firstSeq, 1), payload[MAX_PAYLOAD..]);
      GatherSplit(Next(firstSeq, 1), payload[MAX_PAYLOAD..], rest);
      assert payload[..MAX_PAYLOAD] + payload[MAX_PAYLOAD..] == payload;
    }
  }

  /** A message is read back with its first sequence id, its packet count and its payload. */
  lemma {:induction false} MessageRoundTrip(firstSeq: byte, payload: seq<byte>, rest: seq<byte>)
    ensures ReadMessage(EncodeAll(Split(firstSeq, payload)) + rest)
         == Whole(Message(firstSeq, PacketCount(|payload|), payload), rest)
  {
    GatherSplit(firstSeq, payload, rest);
    SplitFront(firstSeq, payload, rest);
  }

  /** The first packet of a written message. */
  lemma {:induction false} SplitFront(firstSeq: byte, payload: seq<byte>, rest: seq<byte>)
    ensures var s := EncodeAll(Split(firstSeq, payload)) + rest;
            s != [] && Front(s) == Some(Split(firstSeq, payload)[0])
            && Front(s).value.seqId == firstSeq
  {
    var packets := Split(firstSeq, payload);
    EncodeFront(packets, rest);
    FrontOfEncoded(packets[0], EncodeAll(packets[1..]) + rest);
  }

  /** A message read from any stream has the number of packets its payload calls for. */
  lemma {:induction false} GatherCounts(s: seq<byte>)
    requires Gather(s).Some?
    ensures Gather(s).value.1 == PacketCount(|Gather(s).value.0|)
    decreases |s|
  {
    if Front(s).value.Continues() {
      GatherCounts(Behind(s));
    }
  }

  /** Every message of a stream, as repeated reads return them. */
  function ReadAll(s: seq<byte>): seq<Message>
    decreases |s|
  {
    match ReadMessage(s)
    case Whole(message, rest) => [message] + ReadAll(rest)
    case _ => []
  }

  function EncodeMessages(messages: seq<(byte, seq<byte>)>): seq<byte> {
    if messages == [] then []
    else EncodeAll(Split(messages[0].0, messages[0].1)) + EncodeMessages(messages[1..])
  }

  function Delivered(messages: seq<(byte, seq<byte>)>): (r: seq<Message>)
    ensures |r| == |messages|
  {
    if messages == [] then []
    else
      [Message(messages[0].0, PacketCount(|messages[0].1|), messages[0].1)] + Delivered(messages[1..])
  }

  lemma {:induction false} ReadAllUnfolds(firstSeq: byte, payload: seq<byte>, rest: seq<byte>)
    ensures ReadAll(EncodeAll(Split(firstSeq, payload)) + rest)
         == [Message(firstSeq, PacketCount(|payload|), payload)] + ReadAll(rest)
  {
    MessageRoundTrip(firstSeq, payload, rest);
  }

  /** Any sequence of messages, of any lengths, is read back as it was written. */
  lemma {:induction false} StreamRoundTrip(messages: seq<(byte, seq<byte>)>)
    ensures ReadAll(EncodeMessages(messages)) == Delivered(messages)
    decreases |messages|
  {
    if messages != [] {
      ReadAllUnfolds(messages[0].0, messages[0].1, EncodeMessages(messages[1..]));
      StreamRoundTrip(messages[1..]);
    }
  }

  lemma {:induction false} DeliveredIsInjective(a: seq<(byte, seq<byte>)>, b: seq<(byte, seq<byte>)>)
    requires Delivered(a) == Delivered(b)
    ensures a == b
  {
    if a != [] {
      assert Delivered(a)[1..] == Delivered(a[1..]) && Delivered(b)[1..] == Delivered(b[1..]);
      DeliveredIsInjective(a[1..], b[1..]);
      assert Delivered(a)[0] == Delivered(b)[0];
      assert a == [a[0]] + a[1..] && b == [b[0]] + b[1..];
    }
  }

  /** Two streams of written messages are equal only if the messages are: framing loses nothing. */
  lemma {:induction false} FramingIsInjective(a: seq<(byte, seq<byte>)>, b: seq<(byte, seq<byte>)>)
    requires EncodeMessages(a) == EncodeMessages(b)
    ensures a == b
  {
    StreamRoundTrip(a);
    StreamRoundTrip(b);
    DeliveredIsInjective(a, b);
  }
}
