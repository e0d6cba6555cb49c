/** The buffered packet reader and writer. */
module PacketIo {
  import opened Common
  import opened Framing

  /** How an asynchronous call ends; an interruption is a cancellation or a transport error. */
  datatype Arrival<T> = Got(value: T) | Ended | BrokenOff | Interrupted

  lemma {:induction false} FrontHasArrived(buf: seq<byte>, inner: seq<byte>)
    requires Front(buf).Some?
    ensures Front(buf + inner) == Front(buf) && Behind(buf + inner) == Behind(buf) + inner
  {
    var s := buf + inner;
    assert forall i :: 0 <= i < |buf| ==> s[i] == buf[i];
    var n := HEADER_LEN + Announced(buf);
    assert s[HEADER_LEN..n] == buf[HEADER_LEN..n];
  }

  /** A stream after `k` full packets of a split message are gone. */
  ghost predicate Lost(before: seq<byte>, after: seq<byte>, k: nat) {
    if k == 0 then before == after
    else Front(before).Some? && Front(before).value.Continues() && Lost(Behind(before), after, k - 1)
  }

  /** What is left of a stream once its first `k` packets are gone. */
  function Dropped(s: seq<byte>, k: nat): seq<byte>
    decreases k
  {
    if k == 0 || Front(s).None? then s else Dropped(Behind(s), k - 1)
  }

  /** How many packets of an unfinished message the bytes received so far hold whole, if it is unfinished. */
  function Held(received: seq<byte>): (k: Option<nat>)
    decreases |received|
  {
    if Front(received).None? then Some(0)
    else if !Front(received).value.Continues() then None
    else
      var more := Held(Behind(received));
      if more.None? then None else Some(more.value + 1)
  }

  /** The packets gone from a stream are those the received bytes hold. */
  lemma {:induction false} LostIsHeld(before: seq<byte>, after: seq<byte>, k: nat, inner: nat)
    requires Lost(before, after, k) && inner <= |after| && Front(after[..|after| - inner]).None?
    ensures inner <= |before| && Held(before[..|before| - inner]) == Some(k) && after == Dropped(before, k)
    decreases k
  {
    if k > 0 {
      LostIsHeld(Behind(before), after, k - 1, inner);
      FrontInPrefix(before, |before| - inner);
    }
  }

  /** A packet that is there in the received part is the packet at the front of the whole stream. */
  lemma {:induction false} FrontInPrefix(s: seq<byte>, n: nat)
    requires Front(s).Some? && HEADER_LEN + |Front(s).value.payload| <= n <= |s|
    ensures Front(s[..n]) == Front(s) && Behind(s[..n]) == Behind(s)[..n - HEADER_LEN - |Front(s).value.payload|]
  {
    var t, size := s[..n], HEADER_LEN + |Front(s).value.payload|;
    assert Announced(t) == Announced(s);
    assert t[HEADER_LEN..size] == s[HEADER_LEN..size];
    assert t[size..] == s[size..][..n - size];
  }

  /**
   A call that is cancelled while it waits may leave a stream without its first packets. Over all that can have been
   received by then, this happens exactly when the stream starts with a whole packet that announces a continuation.
   */
  lemma {:induction false} CancellationLosesExactly(s: seq<byte>)
    ensures (exists n :: 0 <= n <= |s| && Held(s[..n]).Some? && Dropped(s, Held(s[..n]).value) != s)
       <==> Front(s).Some? && Front(s).value.Continues()
  {
    if Front(s).Some? && Front(s).value.Continues() {
      var size := HEADER_LEN + MAX_PAYLOAD;
      FrontInPrefix(s, size);
      assert Behind(s[..size]) == [];
      assert Held(s[..size]) == Some(1);
      assert Dropped(s, 1) == Dropped(Behind(s), 0) == Behind(s);
      assert |Behind(s)| < |s|;
    }
    forall n | 0 <= n <= |s| && Held(s[..n]).Some? && Dropped(s, Held(s[..n]).value) != s
      ensures Front(s).Some? && Front(s).value.Continues()
    {
      assert Held(s[..n]).value > 0;
      FrontHasArrived(s[..n], s[n..]);
      assert s[..n] + s[n..] == s;
    }
  }

  /** A cancellation in the middle of a message of two packets: what is read next is another message. */
  lemma {:induction false} HalfMessageIsMisread(payload: seq<byte>)
    requires |payload| == MAX_PAYLOAD
    ensures var first, last := Packet(0, payload), Packet(1, []);
            var s := Encode(first) + Encode(last);
            && ReadMessage(s) == Whole(Message(0, 2, payload), [])
            && Held(Encode(first)) == Some(1)
            && ReadMessage(Dropped(s, 1)) == Whole(Message(1, 1, []), [])
  {
    var first, last := Packet(0, payload), Packet(1, []);
    var s := Encode(first) + Encode(last);
    FrontOfEncoded(first, Encode(last));
    FrontOfEncoded(first, []);
    FrontOfEncoded(last, []);
    assert Encode(first) + [] == Encode(first) && Encode(last) + [] == Encode(last);
    assert Dropped(s, 1) == Dropped(Encode(last), 0) == Encode(last);
    assert payload + [] == payload;
    assert Gather(Encode(last)) == Some(([], 1, []));
    assert Gather(s) == Some((payload, 2, []));
  }

  /** The peer's bytes: those received, and those it will still send before it closes. */
  class PacketReader {
    var buf: seq<byte>
    var inner: seq<byte>

    constructor (stream: seq<byte>)
      ensures Stream() == stream && buf == []
    {
      buf, inner := [], stream;
      new;
      assert buf + inner == stream;
    }

    ghost function Stream(): seq<byte>
      reads this
    {
      buf + inner
    }

    /** The peer sends more. */
    method Receive(bytes: seq<byte>)
      modifies this
      ensures Stream() == old(Stream()) + bytes
    {
      assert buf + (inner + bytes) == buf + inner + bytes;
      inner := inner + bytes;
    }

    method HasUnread() returns (unread: bool)
      ensures unread <==> Stream() != []
    {
      return buf != [] || inner != [];
    }

    /** One read from the transport: any non-empty part of what is left, or nothing once it has closed. */
    method ReadBuf() returns (n: nat)
      modifies this
      ensures Stream() == old(Stream()) && |inner| + n == |old(inner)| && |buf| == |old(buf)| + n
      ensures n == 0 <==> old(inner) == []
    {
      if inner == [] {
        return 0;
      }
      n :| 0 < n <= |inner|;
      assert buf + inner == (buf + inner[..n]) + inner[n..];
      buf, inner := buf + inner[..n], inner[n..];
    }

    /**
     The next packet, whatever the chunks it arrives in. The call is given up when it would wait for one read more
     than it is allowed; it loses nothing then.
     */
    method NextPacket(patience: Option<nat>) returns (r: Arrival<Packet>, left: Option<nat>)
      modifies this
      ensures r.Got? ==> Front(old(Stream())) == Some(r.value) && Stream() == Behind(old(Stream()))
      ensures r.Ended? ==> old(Stream()) == []
      ensures r.BrokenOff? ==> old(Stream()) != [] && Front(old(Stream())).None?
      ensures r.Interrupted? ==> patience.Some? && Front(buf).None?
      ensures !r.Got? ==> Stream() == old(Stream())
      ensures left.Some? <==> patience.Some?
      ensures patience == Some(0) ==> left == Some(0) && inner == old(inner)
      ensures patience == Some(0) ==> r.Got? == Front(old(buf)).Some? && r.Interrupted? == Front(old(buf)).None?
      ensures patience == Some(0) && r.Got? ==> buf == Behind(old(buf))
    {
      left := patience;
      while true
        invariant Stream() == old(Stream()) && (left.Some? <==> patience.Some?)
        invariant patience == Some(0) ==> left == Some(0) && inner == old(inner) && buf == old(buf)
        decreases |inner|
      {
        if |buf| >= HEADER_LEN {
          var len := Announced(buf);
          if |buf| >= HEADER_LEN + len {
            FrontHasArrived(buf, inner);
            r := Got(Packet(buf[3], buf[HEADER_LEN..HEADER_LEN + len]));
            buf := buf[HEADER_LEN + len..];
            return;
          }
        }
        if left == Some(0) {
          r := Interrupted;
          return;
        }
        left := if left.Some? then Some(left.value - 1) else None;
        var n := ReadBuf();
        if n == 0 {
          assert inner == [] && Stream() == buf;
          r := if buf == [] then Ended else BrokenOff;
          return;
        }
      }
    }

    /**
     A complete message, following continuation packets. A call that is given up has lost exactly the packets of the
     message that had been received whole; one that may not wait is given up exactly when the message is unfinished.
     */
    method NextMessage(patience: Option<nat>) returns (r: Arrival<Message>)
      modifies this
      ensures r.Got? ==> ReadMessage(old(Stream())) == Whole(r.value, Stream())
      ensures r.Ended? ==> ReadMessage(old(Stream())) == Closed
      ensures r.BrokenOff? ==> ReadMessage(old(Stream())) == Broken
      ensures r.Interrupted? ==> patience.Some? && |inner| <= |old(Stream())|
      ensures r.Interrupted? ==> var lost := Held(old(Stream())[..|old(Stream())| - |inner|]);
                                 lost.Some? && Stream() == Dropped(old(Stream()), lost.value)
      ensures patience == Some(0) ==> inner == old(inner)
      ensures patience == Some(0) ==> r.Got? == Held(old(buf)).None? && r.Interrupted? == Held(old(buf)).Some?
    {
      hide Front, Held, Dropped;
      ghost var start := Stream();
      var first, left := NextPacket(patience);
      if !first.Got? {
        if first.Interrupted? {
          GivenUp(start, 0);
        }
        return match first case Ended => Ended case BrokenOff => BrokenOff case _ => Interrupted;
      }
      var packetCount, payload := 1, first.value.payload;
      var continues := first.value.Continues();
      if patience == Some(0) {
        HeldFront(old(buf), old(inner));
      }
      while continues
        invariant 0 < packetCount && Front(start) == Some(first.value) && (left.Some? <==> patience.Some?)
        invariant continues ==> Gather(start) == Continued(payload, packetCount, Gather(Stream()))
        invariant !continues ==> Gather(start) == Some((payload, packetCount, Stream()))
        invariant continues ==> Lost(start, Stream(), packetCount)
        invariant patience == Some(0) ==> left == Some(0) && inner == old(inner)
        invariant patience == Some(0) ==> Held(old(buf)) == if continues then Further(packetCount, Held(buf)) else None
        decreases |Stream()|
      {
        ghost var here, received := Stream(), buf;
        var next;
        next, left := NextPacket(left);
        if !next.Got? {
          if next.Interrupted? {
            GivenUp(start, packetCount);
            return Interrupted;
          }
          return BrokenOff;
        }
        if patience == Some(0) {
          HeldFront(received, inner);
        }
        ContinuesOnce(payload, packetCount, next.value.payload, Gather(Stream()));
        packetCount := packetCount + 1;
        payload := payload + next.value.payload;
        continues := next.value.Continues();
        if continues {
          LosesOneMore(start, here, packetCount - 1);
        }
      }
      return Got(Message(first.value.seqId, packetCount, payload));
    }

    /** What a call that is given up has lost. */
    lemma {:induction false} GivenUp(start: seq<byte>, k: nat)
      requires Lost(start, Stream(), k) && Front(buf).None?
      ensures |inner| <= |start|
      ensures Held(start[..|start| - |inner|]) == Some(k) && Stream() == Dropped(start, k)
    {
      assert Stream()[..|Stream()| - |inner|] == buf;
      LostIsHeld(start, Stream(), k, |inner|);
    }

    /** Waits for the peer to send or close while idle; what arrives stays in the stream. */
    method WaitForActivity() returns (active: bool)
      modifies this
      ensures Stream() == old(Stream())
      ensures active <==> old(Stream()) != []
      ensures active ==> buf != []
    {
      if buf != [] {
        return true;
      }
      var n := ReadBuf();
      return n != 0;
    }
  }

  function Continued(payload: seq<byte>, count: nat, later: Option<(seq<byte>, nat, seq<byte>)>)
    : Option<(seq<byte>, nat, seq<byte>)>
  {
    if later.None? then None else Some((payload + later.value.0, count + later.value.1, later.value.2))
  }

  /** Packets held before some more. */
  function Further(k: nat, more: Option<nat>): Option<nat> {
    if more.None? then None else Some(k + more.value)
  }

  lemma {:induction false} HeldFront(received: seq<byte>, inner: seq<byte>)
    requires Front(received).Some?
    ensures Front(received + inner) == Front(received)
    ensures Held(received)
         == if Front(received).value.Continues() then Further(1, Held(Behind(received))) else None
  {
    FrontHasArrived(received, inner);
  }

  lemma {:induction false} ContinuesOnce(payload: seq<byte>, count: nat, more: seq<byte>,
                                         later: Option<(seq<byte>, nat, seq<byte>)>)
    ensures Continued(payload, count, Continued(more, 1, later)) == Continued(payload + more, count + 1, later)
  {
    if later.Some? {
      assert payload + (more + later.value.0) == payload + more + later.value.0;
    }
  }

  lemma {:induction false} LosesOneMore(before: seq<byte>, after: seq<byte>, k: nat)
    requires Lost(before, after, k) && Front(after).Some? && Front(after).value.Continues()
    ensures Lost(before, Behind(after), k + 1)
    decreases k
  {
    if k > 0 {
      LosesOneMore(Behind(before), after, k - 1);
    }
  }

  /** The bytes sent to a peer, and the buffer a packet is assembled in. */
  class PacketWriter {
    var sent: seq<byte>
    var scratch: seq<byte>

    constructor ()
      ensures sent == []
    {
      sent, scratch := [], [];
    }

    /** Writes the buffer; a transport error leaves some prefix of it written. */
    method WriteAll() returns (ok: bool)
      modifies this`sent
      ensures ok ==> sent == old(sent) + scratch
      ensures old(sent) <= sent <= old(sent) + scratch
    {
      if * {
        var k: nat :| k <= |scratch|;
        sent := sent + scratch[..k];
        return false;
      }
      sent := sent + scratch;
      return true;
    }

    method PutPacket(seqId: byte, payload: seq<byte>)
      requires |payload| <= MAX_PAYLOAD
      modifies this`scratch
      ensures scratch == old(scratch) + Encode(Packet(seqId, payload))
    {
      scratch := scratch + LengthBytes(|payload|);
      scratch := scratch + [seqId];
      scratch := scratch + payload;
      assert old(scratch) + LengthBytes(|payload|) + [seqId] + payload
          == old(scratch) + (LengthBytes(|payload|) + [seqId] + payload);
    }

    /** One packet, verbatim. */
    method WritePacket(packet: Packet) returns (ok: bool)
      requires |packet.payload| <= MAX_PAYLOAD
      modifies this
      ensures ok ==> sent == old(sent) + Encode(packet)
      ensures old(sent) <= sent <= old(sent) + Encode(packet)
    {
      scratch := [];
      PutPacket(packet.seqId, packet.payload);
      assert scratch == Encode(packet);
      ok := WriteAll();
    }

    /** A message, split as required; returns the sequence id the next message should start from. */
    method WriteMessage(firstSeq: byte, payload: seq<byte>) returns (ok: bool, next: byte)
      modifies this
      ensures ok ==> sent == old(sent) + EncodeAll(Split(firstSeq, payload))
      ensures ok ==> next == Next(firstSeq, PacketCount(|payload|))
      ensures old(sent) <= sent <= old(sent) + EncodeAll(Split(firstSeq, payload))
    {
      scratch, next := [], firstSeq;
      var offset := 0;
      StartsMessage(firstSeq, payload);
      while true
        invariant sent == old(sent) && Assembling(scratch, next, payload, offset, firstSeq)
        decreases |payload| - offset
      {
        var chunk := if |payload| - offset < MAX_PAYLOAD then |payload| - offset else MAX_PAYLOAD;
        MessageGrows(scratch, next, payload, offset, firstSeq, chunk);
        PutPacket(next, payload[offset..offset + chunk]);
        next := Next(next, 1);
        offset := offset + chunk;
        if chunk < MAX_PAYLOAD {
          break;
        }
      }
      ok := WriteAll();
    }
  }

  /** What is assembled of a message, and what is still to come, make up the message. */
  ghost predicate Assembling(put: seq<byte>, next: byte, payload: seq<byte>, offset: nat, firstSeq: byte) {
    && offset <= |payload|
    && put + EncodeAll(Split(next, payload[offset..])) == EncodeAll(Split(firstSeq, payload))
    && Next(next, PacketCount(|payload| - offset)) == Next(firstSeq, PacketCount(|payload|))
  }

  lemma {:induction false} StartsMessage(firstSeq: byte, payload: seq<byte>)
    ensures Assembling([], firstSeq, payload, 0, firstSeq)
  {
    assert payload[0..] == payload;
    assert [] + EncodeAll(Split(firstSeq, payload)) == EncodeAll(Split(firstSeq, payload));
  }

  lemma {:induction false} MessageGrows(put: seq<byte>, next: byte, payload: seq<byte>, offset: nat, firstSeq: byte,
                                        chunk: nat)
    requires Assembling(put, next, payload, offset, firstSeq)
    requires chunk == if |payload| - offset < MAX_PAYLOAD then |payload| - offset else MAX_PAYLOAD
    ensures var grown := put + Encode(Packet(next, payload[offset..offset + chunk]));
            if chunk < MAX_PAYLOAD then
              grown == EncodeAll(Split(firstSeq, payload)) && Next(next, 1) == Next(firstSeq, PacketCount(|payload|))
            else Assembling(grown, Next(next, 1), payload, offset + chunk, firstSeq)
  {
    var rest := payload[offset..];
    SplitUnfolds(next, rest);
    assert rest[..chunk] == payload[offset..offset + chunk];
    if chunk == MAX_PAYLOAD {
      assert rest[chunk..] == payload[offset + chunk..];
      Counts(next, |rest|);
      FullChunk(put, Encode(Packet(next, rest[..chunk])), EncodeAll(Split(Next(next, 1), rest[chunk..])));
    } else {
      assert rest[..chunk] == rest;
    }
  }

  lemma {:induction false} FullChunk(a: seq<byte>, b: seq<byte>, c: seq<byte>)
    ensures a + (b + c) == a + b + c
  {
  }

  lemma {:induction false} Counts(id: byte, length: nat)
    ensures length < MAX_PAYLOAD ==> PacketCount(length) == 1
    ensures length >= MAX_PAYLOAD ==> PacketCount(length) == 1 + PacketCount(length - MAX_PAYLOAD)
    ensures forall n: nat :: Next(Next(id, 1), n) == Next(id, n + 1)
  {
  }

  /** The bytes of a message: a packet, and the bytes of the rest if that packet is full. */
  lemma {:induction false} SplitUnfolds(firstSeq: byte, payload: seq<byte>)
    ensures |payload| < MAX_PAYLOAD ==> EncodeAll(Split(firstSeq, payload)) == Encode(Packet(firstSeq, payload))
    ensures |payload| >= MAX_PAYLOAD ==>
              EncodeAll(Split(firstSeq, payload))
              == Encode(Packet(firstSeq, payload[..MAX_PAYLOAD]))
                 + EncodeAll(Split(Next(firstSeq, 1), payload[MAX_PAYLOAD..]))
  {
    var packets := Split(firstSeq, payload);
    if |payload| < MAX_PAYLOAD {
      assert packets[1..] == [];
    } else {
      assert packets[1..] == Split(Next(firstSeq, 1), payload[MAX_PAYLOAD..]);
    }
  }
}
