// Length-prefixed framing of messages over a byte stream (crates/decentgpu-common/src/transfer.rs:22-51).
module Framing {
  type Byte = b: int | 0 <= b < 256

  const U32_RANGE := 0x1_0000_0000
  const MAX_FRAME := 512 * 1024 * 1024

  function BigEndian(n: nat): (b: seq<Byte>)
    requires n < U32_RANGE
    ensures |b| == 4
  {
    [n / 0x100_0000, n / 0x1_0000 % 256, n / 0x100 % 256, n % 256]
  }

  /** Most significant byte first. */
  lemma BigEndianInNumbers(n: nat)
    requires n < 4_294_967_296
    ensures var b := BigEndian(n);
            n == b[0] as int * 16_777_216 + b[1] as int * 65_536 + b[2] as int * 256 + b[3] as int
  {
    BigEndianRoundTrip(n);
  }

  function FromBigEndian(b: seq<Byte>): nat
    requires |b| == 4
  {
    b[0] as int * 0x100_0000 + b[1] as int * 0x1_0000 + b[2] as int * 0x100 + b[3] as int
  }

  /** The bytes of one message; the length is cast to 32 bits before it is written. */
  function Frame(payload: seq<Byte>): seq<Byte> {
    BigEndian(|payload| % U32_RANGE) + payload
  }

  datatype ReadResult =
    | Got(payload: seq<Byte>, rest: seq<Byte>)
    | TooLarge(rest: seq<Byte>)
    | Starved                   // not enough bytes yet

  function ReadFrame(stream: seq<Byte>): ReadResult {
    if |stream| < 4 then Starved
    else
      var len := FromBigEndian(stream[..4]);
      if len > MAX_FRAME then TooLarge(stream[4..])
      else if |stream| < 4 + len then Starved
      else Got(stream[4..4 + len], stream[4 + len..])
  }

  function FrameAll(payloads: seq<seq<Byte>>): seq<Byte> {
    if payloads == [] then [] else Frame(payloads[0]) + FrameAll(payloads[1..])
  }

  /** All messages that are complete in the stream, and the bytes after them. */
  function ReadAll(stream: seq<Byte>): (seq<seq<Byte>>, seq<Byte>)
    decreases |stream|
  {
    match ReadFrame(stream)
    case Got(payload, rest) =>
      var (more, tail) := ReadAll(rest);
      ([payload] + more, tail)
    case _ => ([], stream)
  }

  lemma BigEndianRoundTrip(n: nat)
    requires n < U32_RANGE
    ensures FromBigEndian(BigEndian(n)) == n
  {
    var b := BigEndian(n);
    assert n / 0x1_0000 == n / 0x100 / 0x100;
    assert n / 0x100_0000 == n / 0x1_0000 / 0x100;
  }

  /** A frame reads back as its payload exactly when the payload is at most 512 MiB. */
  lemma FrameRoundTrip(payload: seq<Byte>, tail: seq<Byte>)
    ensures ReadFrame(Frame(payload) + tail) == Got(payload, tail) <==> |payload| <= MAX_FRAME
  {
    var len := |payload| % U32_RANGE;
    var stream := Frame(payload) + tail;
    BigEndianRoundTrip(len);
    assert stream[..4] == BigEndian(len);
    if |payload| <= MAX_FRAME {
      assert len == |payload|;
      assert stream[4..4 + len] == payload && stream[4 + len..] == tail;
    } else if len <= MAX_FRAME {
      assert len < |payload|;
      assert ReadFrame(stream).Got? ==> |ReadFrame(stream).payload| == len;
    }
  }

  lemma ReadAllCons(stream: seq<Byte>, payload: seq<Byte>, rest: seq<Byte>)
    requires ReadFrame(stream) == Got(payload, rest)
    ensures ReadAll(stream) == ([payload] + ReadAll(rest).0, ReadAll(rest).1)
  {
  }

  /** Decoding the concatenation of any frames returns exactly their payloads, with nothing left over. */
  lemma {:induction false} FramesRoundTrip(payloads: seq<seq<Byte>>)
    requires forall i :: 0 <= i < |payloads| ==> |payloads[i]| <= MAX_FRAME
    ensures ReadAll(FrameAll(payloads)) == (payloads, [])
  {
    if payloads == [] {
      assert ReadFrame([]) == Starved;
    } else {
      FrameRoundTrip(payloads[0], FrameAll(payloads[1..]));
      FramesRoundTrip(payloads[1..]);
      ReadAllCons(FrameAll(payloads), payloads[0], FrameAll(payloads[1..]));
      assert payloads == [payloads[0]] + payloads[1..];
    }
  }

  /** Bytes that arrive later never change a message that is already complete. */
  lemma {:induction false} LaterBytesKeepMessages(stream: seq<Byte>, later: seq<Byte>)
    ensures ReadAll(stream).0 <= ReadAll(stream + later).0
    decreases |stream|
  {
    var r := ReadFrame(stream);
    if r.Got? {
      var len := |r.payload|;
      assert (stream + later)[..4] == stream[..4];
      assert (stream + later)[4..4 + len] == r.payload;
      assert (stream + later)[4 + len..] == r.rest + later;
      LaterBytesKeepMessages(r.rest, later);
    }
  }

  /** Whatever part of a stream of frames has arrived, the receiver sees a prefix of the messages. */
  lemma PartialStream(payloads: seq<seq<Byte>>, arrived: nat)
    requires forall i :: 0 <= i < |payloads| ==> |payloads[i]| <= MAX_FRAME
    requires arrived <= |FrameAll(payloads)|
    ensures ReadAll(FrameAll(payloads)[..arrived]).0 <= payloads
  {
    var stream := FrameAll(payloads);
    assert stream == stream[..arrived] + stream[arrived..];
    LaterBytesKeepMessages(stream[..arrived], stream[arrived..]);
    FramesRoundTrip(payloads);
  }

  /** The length that the first four bytes announce. */
  ghost function Length(stream: seq<Byte>): nat
    requires |stream| >= 4
  {
    stream[0] as int * 16_777_216 + stream[1] as int * 65_536 + stream[2] as int * 256 + stream[3] as int
  }

  /** One end of a connection: bytes to read and bytes written. */
  class Stream {
    var inbox: seq<Byte>
    var outbox: seq<Byte>

    constructor (inbox: seq<Byte>)
      ensures this.inbox == inbox && outbox == []
    {
      this.inbox, outbox := inbox, [];
    }

    method WriteAll(bytes: seq<Byte>)
      modifies this`outbox
      ensures outbox == old(outbox) + bytes
    {
      outbox := outbox + bytes;
    }

    /** Takes exactly `n` bytes, or fails when the peer sends no more. */
    method ReadExact(n: nat) returns (ok: bool, buf: seq<Byte>)
      modifies this`inbox
      ensures ok == (n <= |old(inbox)|)
      ensures if ok then buf == old(inbox)[..n] && inbox == old(inbox)[n..] else inbox == []
    {
      if n <= |inbox| {
        ok, buf, inbox := true, inbox[..n], inbox[n..];
      } else {
        ok, buf, inbox := false, [], [];
      }
    }

    method WriteLengthPrefixed(payload: seq<Byte>)
      modifies this`outbox
      ensures outbox == old(outbox) + Frame(payload)
      ensures |outbox| == |old(outbox)| + 4 + |payload| && outbox[|old(outbox)| + 4..] == payload
      ensures var header := outbox[|old(outbox)|..];
              |payload| % 4_294_967_296
              == header[0] as int * 16_777_216 + header[1] as int * 65_536 + header[2] as int * 256 + header[3] as int
    {
      BigEndianInNumbers(|payload| % U32_RANGE);
      WriteAll(BigEndian(|payload| % U32_RANGE));
      WriteAll(payload);
    }

    method ReadLengthPrefixed() returns (ok: bool, payload: seq<Byte>)
      modifies this`inbox
      ensures ok == ReadFrame(old(inbox)).Got?
      ensures ok ==> ReadFrame(old(inbox)) == Got(payload, inbox)
      ensures ok <==> |old(inbox)| >= 4 && Length(old(inbox)) <= 536_870_912 && |old(inbox)| - 4 >= Length(old(inbox))
      ensures ok ==> |payload| == Length(old(inbox)) && old(inbox)[4..] == payload + inbox
      ensures ReadFrame(old(inbox)).TooLarge? ==> inbox == ReadFrame(old(inbox)).rest
    {
      var header;
      ok, header := ReadExact(4);
      if !ok {
        return false, [];
      }
      var len := FromBigEndian(header);
      if len > MAX_FRAME {
        return false, [];
      }
      ok, payload := ReadExact(len);
    }
  }
}
