// The transfer over real byte streams: messages are framed, their bytes arrive in pieces of any
// size, and a process goes on only when a whole frame has arrived. Every such run is a run of
// `TransferProtocol`, so that what holds there holds here.
module TransferBytes {
  import opened Types
  import opened Framing
  import opened Transfer
  import opened TransferProtocol

  /** An encoding of messages, protobuf's in the program. */
  datatype Codec<!M> = Codec(encode: M -> seq<Byte>, decode: seq<Byte> -> Option<M>)

  /** One direction of the stream: bytes not yet delivered, and bytes waiting to be read. */
  datatype Pipe = Pipe(arrived: seq<Byte>, underWay: seq<Byte>)

  /** The processes and their history, as in `TransferProtocol.State`, with pipes for channels. */
  datatype Bytes = Bytes(core: State, toReceiver: Pipe, toSender: Pipe)

  datatype ByteAction =
    | Move(a: Action)                  // a step of a process, or an alteration
    | DeliverChunkBytes(n: nat)
    | DeliverAckBytes(n: nat)

  function Start(file: seq<Byte>): Bytes {
    Bytes(Init(file), Pipe([], []), Pipe([], []))
  }

  function Deliver(p: Pipe, n: nat): Pipe {
    var m := Min(n, |p.underWay|);
    Pipe(p.arrived + p.underWay[..m], p.underWay[m..])
  }

  /** The message at the head of some bytes, if it is complete and means something. */
  function Head<M>(bytes: seq<Byte>, codec: Codec<M>): Option<M> {
    match ReadFrame(bytes)
    case Got(payload, _) => codec.decode(payload)
    case _ => None
  }

  function Tail(bytes: seq<Byte>): seq<Byte> {
    match ReadFrame(bytes)
    case Got(_, rest) => rest
    case _ => bytes
  }

  function Written<M>(p: Pipe, messages: seq<M>, codec: Codec<M>): Pipe
    decreases |messages|
  {
    if messages == [] then p
    else Written(p.(underWay := p.underWay + Frame(codec.encode(messages[0]))), messages[1..], codec)
  }

  function AsSeq<M>(m: Option<M>): seq<M> {
    if m.Some? then [m.value] else []
  }

  /** The state as the process sees it that is about to take step `a`: with the message, if any, that
      it reads or alters. */
  function View(b: Bytes, a: Action, chunks: Codec<Chunk>, acks: Codec<Ack>): State {
    match a
    case ReadChunk => b.core.(toReceiver := AsSeq(Head(b.toReceiver.arrived, chunks)))
    case ReadAck => b.core.(toSender := AsSeq(Head(b.toSender.arrived, acks)))
    case Tamper(_) =>
      b.core.(toReceiver := if b.toReceiver.arrived == [] then AsSeq(Head(b.toReceiver.underWay, chunks)) else [])
    case _ => b.core
  }

  /** Only data that still fits into a frame can be put in, and only before anything of it arrives. */
  predicate Possible(b: Bytes, a: Action, chunks: Codec<Chunk>, acks: Codec<Ack>) {
    Enabled(View(b, a, chunks, acks), a)
    && (a.Tamper? ==> |chunks.encode(View(b, a, chunks, acks).toReceiver[0].(data := a.data))| <= MAX_FRAME)
  }

  /** Messages read are taken off the pipe, messages written are framed and put on it. */
  function ByteStep(b: Bytes, a: ByteAction, file: seq<Byte>, hash: Hash, chunks: Codec<Chunk>,
                    acks: Codec<Ack>): Bytes {
    match a
    case DeliverChunkBytes(n) => b.(toReceiver := Deliver(b.toReceiver, n))
    case DeliverAckBytes(n) => b.(toSender := Deliver(b.toSender, n))
    case Move(move) =>
      if !Possible(b, move, chunks, acks) then b
      else
        var s' := Apply(View(b, move, chunks, acks), move, file, hash);
        var toReceiver := match move
          case ReadChunk => b.toReceiver.(arrived := Tail(b.toReceiver.arrived))
          case SenderLoop => Written(b.toReceiver, s'.toReceiver, chunks)
          case Tamper(_) => Pipe([], Frame(chunks.encode(s'.toReceiver[0])) + Tail(b.toReceiver.underWay))
          case _ => b.toReceiver;
        var toSender := match move
          case ReadAck => b.toSender.(arrived := Tail(b.toSender.arrived))
          case WriteAck => Written(b.toSender, s'.toSender, acks)
          case _ => b.toSender;
        Bytes(s'.(toReceiver := [], toSender := []), toReceiver, toSender)
  }

  function ByteRun(file: seq<Byte>, hash: Hash, actions: seq<ByteAction>, chunks: Codec<Chunk>,
                   acks: Codec<Ack>): Bytes {
    if actions == [] then Start(file)
    else
      var before, last := actions[..|actions| - 1], actions[|actions| - 1];
      ByteStep(ByteRun(file, hash, before, chunks, acks), last, file, hash, chunks, acks)
  }

  // ── Every run over bytes is a run over messages ────────────────────────────────────────

  /** Decoding inverts encoding for offsets within the file, and what the two loops write fits into
      a frame. */
  ghost predicate Suitable(file: seq<Byte>, hash: Hash, chunks: Codec<Chunk>, acks: Codec<Ack>) {
    && (forall c: Chunk :: c.offset <= |file| ==> chunks.decode(chunks.encode(c)) == Some(c))
    && (forall c: Chunk :: c.offset <= |file| && |c.data| <= CHUNK_SIZE && c.sha == hash(c.data) ==>
          |chunks.encode(c)| <= MAX_FRAME)
    && (forall k: Ack :: k.offset <= |file| ==> acks.decode(acks.encode(k)) == Some(k) && |acks.encode(k)| <= MAX_FRAME)
  }

  function Encoded<M>(messages: seq<M>, codec: Codec<M>): seq<seq<Byte>> {
    seq(|messages|, i requires 0 <= i < |messages| => codec.encode(messages[i]))
  }

  ghost predicate Fits<M>(m: M, codec: Codec<M>) {
    codec.decode(codec.encode(m)) == Some(m) && |codec.encode(m)| <= MAX_FRAME
  }

  /** A pipe holds exactly the frames of these messages. */
  ghost predicate Holds<M>(p: Pipe, messages: seq<M>, codec: Codec<M>) {
    && p.arrived + p.underWay == FrameAll(Encoded(messages, codec))
    && forall i :: 0 <= i < |messages| ==> Fits(messages[i], codec)
  }

  /** No message has an offset outside the file. */
  ghost predicate OffsetsInv(s: State, file: seq<Byte>) {
    && (s.sender.Sending? ==> s.sender.offset + |s.sender.remaining| == |file|)
    && (s.sender.AwaitingAck? ==> s.sender.offset + s.sender.n + |s.sender.remaining| == |file|)
    && (forall c :: c in s.toReceiver ==> c.offset <= |file|)
    && (s.receiver.Verified? ==> s.receiver.chunk.offset <= |file|)
  }

  lemma StepKeepsOffsets(s: State, a: Action, file: seq<Byte>, hash: Hash)
    requires OffsetsInv(s, file)
    ensures OffsetsInv(Step(s, a, file, hash), file)
  {
  }

  ghost predicate Simulates(b: Bytes, s: State, chunks: Codec<Chunk>, acks: Codec<Ack>) {
    && b.core == s.(toReceiver := [], toSender := [])
    && Holds(b.toReceiver, s.toReceiver, chunks)
    && Holds(b.toSender, s.toSender, acks)
  }

  lemma DeliverKeepsBytes(p: Pipe, n: nat)
    ensures Deliver(p, n).arrived + Deliver(p, n).underWay == p.arrived + p.underWay
  {
  }

  /** A complete frame stays the same frame whatever follows. */
  lemma FrameStays(bytes: seq<Byte>, later: seq<Byte>)
    requires ReadFrame(bytes).Got?
    ensures ReadFrame(bytes + later) == Got(ReadFrame(bytes).payload, ReadFrame(bytes).rest + later)
  {
    var len := |ReadFrame(bytes).payload|;
    assert (bytes + later)[..4] == bytes[..4];
    assert (bytes + later)[4..4 + len] == bytes[4..4 + len];
    assert (bytes + later)[4 + len..] == bytes[4 + len..] + later;
  }

  lemma FrameAllCons(payload: seq<Byte>, payloads: seq<seq<Byte>>)
    ensures FrameAll([payload] + payloads) == Frame(payload) + FrameAll(payloads)
  {
    assert ([payload] + payloads)[1..] == payloads;
  }

  lemma EncodedCons<M>(messages: seq<M>, codec: Codec<M>)
    requires messages != []
    ensures Encoded(messages, codec) == [codec.encode(messages[0])] + Encoded(messages[1..], codec)
  {
  }

  lemma {:induction false} FrameAllAppend(payloads: seq<seq<Byte>>, payload: seq<Byte>)
    ensures FrameAll(payloads + [payload]) == FrameAll(payloads) + Frame(payload)
  {
    if payloads == [] {
      assert payloads + [payload] == [payload] + [];
      FrameAllCons(payload, []);
    } else {
      assert payloads + [payload] == [payloads[0]] + (payloads[1..] + [payload]);
      FrameAllCons(payloads[0], payloads[1..] + [payload]);
      FrameAllAppend(payloads[1..], payload);
    }
  }

  /** What can be read from a pipe is its first message, and reading it leaves the others. */
  lemma ReadIsFirst<M>(p: Pipe, messages: seq<M>, codec: Codec<M>)
    requires Holds(p, messages, codec) && Head(p.arrived, codec).Some?
    ensures messages != [] && Head(p.arrived, codec) == Some(messages[0])
    ensures Holds(p.(arrived := Tail(p.arrived)), messages[1..], codec)
  {
    FrameStays(p.arrived, p.underWay);
    assert messages == [] ==> Encoded(messages, codec) == [];
    if messages != [] {
      EncodedCons(messages, codec);
      FrameAllCons(codec.encode(messages[0]), Encoded(messages[1..], codec));
      FrameRoundTrip(codec.encode(messages[0]), FrameAll(Encoded(messages[1..], codec)));
    }
  }

  lemma WriteIsLast<M>(p: Pipe, messages: seq<M>, message: M, codec: Codec<M>)
    requires Holds(p, messages, codec) && Fits(message, codec)
    ensures Holds(Written(p, [message], codec), messages + [message], codec)
  {
    FrameAllAppend(Encoded(messages, codec), codec.encode(message));
    assert Encoded(messages + [message], codec) == Encoded(messages, codec) + [codec.encode(message)];
    assert Written(p, [message], codec) == p.(underWay := p.underWay + Frame(codec.encode(message)));
  }

  lemma HeadIsFirst<M>(p: Pipe, messages: seq<M>, codec: Codec<M>)
    requires Holds(p, messages, codec) && p.arrived == [] && Head(p.underWay, codec).Some?
    ensures messages != [] && Head(p.underWay, codec) == Some(messages[0])
    ensures Tail(p.underWay) == FrameAll(Encoded(messages[1..], codec))
  {
    var q := Pipe(p.underWay, []);
    assert p.arrived + p.underWay == p.underWay == q.arrived + q.underWay;
    ReadIsFirst(q, messages, codec);
    assert Tail(p.underWay) + [] == Tail(p.underWay);
  }

  /** Altering the message at the head of a pipe that has delivered nothing alters the first message. */
  lemma AlterIsFirst<M>(p: Pipe, messages: seq<M>, message: M, codec: Codec<M>)
    requires Holds(p, messages, codec) && p.arrived == [] && Head(p.underWay, codec).Some? && Fits(message, codec)
    ensures Holds(Pipe([], Frame(codec.encode(message)) + Tail(p.underWay)), [message] + messages[1..], codec)
  {
    HeadIsFirst(p, messages, codec);
    var altered := [message] + messages[1..];
    EncodedCons(altered, codec);
    assert altered[1..] == messages[1..];
    FrameAllCons(codec.encode(message), Encoded(messages[1..], codec));
    assert [] + (Frame(codec.encode(message)) + Tail(p.underWay)) == Frame(codec.encode(message)) + Tail(p.underWay);
  }

  lemma ReadChunkSimulates(b: Bytes, s: State, file: seq<Byte>, hash: Hash, chunks: Codec<Chunk>, acks: Codec<Ack>)
    requires Simulates(b, s, chunks, acks) && Possible(b, ReadChunk, chunks, acks)
    ensures Enabled(s, ReadChunk)
    ensures Simulates(ByteStep(b, Move(ReadChunk), file, hash, chunks, acks), Apply(s, ReadChunk, file, hash),
                      chunks, acks)
  {
    ReadIsFirst(b.toReceiver, s.toReceiver, chunks);
  }

  lemma ReadAckSimulates(b: Bytes, s: State, file: seq<Byte>, hash: Hash, chunks: Codec<Chunk>, acks: Codec<Ack>)
    requires Simulates(b, s, chunks, acks) && Possible(b, ReadAck, chunks, acks)
    ensures Enabled(s, ReadAck)
    ensures Simulates(ByteStep(b, Move(ReadAck), file, hash, chunks, acks), Apply(s, ReadAck, file, hash), chunks, acks)
  {
    ReadIsFirst(b.toSender, s.toSender, acks);
  }

  lemma SendSimulates(b: Bytes, s: State, file: seq<Byte>, hash: Hash, chunks: Codec<Chunk>, acks: Codec<Ack>)
    requires Suitable(file, hash, chunks, acks) && OffsetsInv(s, file)
    requires Simulates(b, s, chunks, acks) && Possible(b, SenderLoop, chunks, acks)
    ensures Enabled(s, SenderLoop)
    ensures Simulates(ByteStep(b, Move(SenderLoop), file, hash, chunks, acks), Apply(s, SenderLoop, file, hash),
                      chunks, acks)
  {
    var written := Apply(b.core, SenderLoop, file, hash).toReceiver;
    if s.sender.remaining == [] {
      assert written == [];
    } else {
      assert written == [written[0]];
      WriteIsLast(b.toReceiver, s.toReceiver, written[0], chunks);
    }
  }

  lemma AnswerSimulates(b: Bytes, s: State, file: seq<Byte>, hash: Hash, chunks: Codec<Chunk>, acks: Codec<Ack>)
    requires Suitable(file, hash, chunks, acks) && OffsetsInv(s, file)
    requires Simulates(b, s, chunks, acks) && Possible(b, WriteAck, chunks, acks)
    ensures Enabled(s, WriteAck)
    ensures Simulates(ByteStep(b, Move(WriteAck), file, hash, chunks, acks), Apply(s, WriteAck, file, hash),
                      chunks, acks)
  {
    var ack := Ack(s.receiver.chunk.offset, s.receiver.ok);
    assert Apply(b.core, WriteAck, file, hash).toSender == [ack];
    WriteIsLast(b.toSender, s.toSender, ack, acks);
  }

  lemma AlterSimulates(b: Bytes, s: State, data: seq<Byte>, file: seq<Byte>, hash: Hash, chunks: Codec<Chunk>,
                       acks: Codec<Ack>)
    requires Suitable(file, hash, chunks, acks) && OffsetsInv(s, file)
    requires Simulates(b, s, chunks, acks) && Possible(b, Tamper(data), chunks, acks)
    ensures Enabled(s, Tamper(data))
    ensures Simulates(ByteStep(b, Move(Tamper(data)), file, hash, chunks, acks),
                      Apply(s, Tamper(data), file, hash), chunks, acks)
  {
    var message := Head(b.toReceiver.underWay, chunks).value.(data := data);
    HeadIsFirst(b.toReceiver, s.toReceiver, chunks);
    AlterIsFirst(b.toReceiver, s.toReceiver, message, chunks);
  }

  /** A step that neither reads nor writes. */
  predicate Local(a: Action) {
    a.SenderFails? || a.KeepChunk? || a.WriteFile? || a.ReceiverFails? || a.WriteFails?
  }

  lemma LocalIgnoresChannels(core: State, s: State, a: Action, file: seq<Byte>, hash: Hash)
    requires Local(a) && core == s.(toReceiver := [], toSender := []) && Enabled(core, a)
    ensures Enabled(s, a)
    ensures Apply(s, a, file, hash).toReceiver == s.toReceiver && Apply(s, a, file, hash).toSender == s.toSender
    ensures Apply(core, a, file, hash) == Apply(s, a, file, hash).(toReceiver := [], toSender := [])
  {
  }

  lemma LocalSimulates(b: Bytes, s: State, a: Action, file: seq<Byte>, hash: Hash, chunks: Codec<Chunk>,
                       acks: Codec<Ack>)
    requires Simulates(b, s, chunks, acks) && Possible(b, a, chunks, acks) && Local(a)
    ensures Enabled(s, a)
    ensures Simulates(ByteStep(b, Move(a), file, hash, chunks, acks), Apply(s, a, file, hash), chunks, acks)
  {
    LocalIgnoresChannels(b.core, s, a, file, hash);
    assert ByteStep(b, Move(a), file, hash, chunks, acks) == b.(core := Apply(b.core, a, file, hash));
  }

  /** What a step over bytes is among messages: the delivery of bytes is nothing. */
  function Meaning(b: Bytes, a: ByteAction, chunks: Codec<Chunk>, acks: Codec<Ack>): seq<Action> {
    if a.Move? && Possible(b, a.a, chunks, acks) then [a.a] else []
  }

  lemma StepSimulates(b: Bytes, s: State, a: ByteAction, file: seq<Byte>, hash: Hash, chunks: Codec<Chunk>,
                      acks: Codec<Ack>)
    requires Suitable(file, hash, chunks, acks) && OffsetsInv(s, file) && Simulates(b, s, chunks, acks)
    ensures var s' := if Meaning(b, a, chunks, acks) == [] then s else Step(s, a.a, file, hash);
            Simulates(ByteStep(b, a, file, hash, chunks, acks), s', chunks, acks) && OffsetsInv(s', file)
  {
    if Meaning(b, a, chunks, acks) != [] {
      StepKeepsOffsets(s, a.a, file, hash);
    }
    match a
    case DeliverChunkBytes(n) => DeliverKeepsBytes(b.toReceiver, n);
    case DeliverAckBytes(n) => DeliverKeepsBytes(b.toSender, n);
    case Move(move) =>
      if Possible(b, move, chunks, acks) {
        match move
        case SenderLoop => SendSimulates(b, s, file, hash, chunks, acks);
        case WriteAck => AnswerSimulates(b, s, file, hash, chunks, acks);
        case Tamper(data) => AlterSimulates(b, s, data, file, hash, chunks, acks);
        case ReadChunk => ReadChunkSimulates(b, s, file, hash, chunks, acks);
        case ReadAck => ReadAckSimulates(b, s, file, hash, chunks, acks);
        case _ => LocalSimulates(b, s, move, file, hash, chunks, acks);
      }
  }

  lemma RunAppend(file: seq<Byte>, hash: Hash, actions: seq<Action>, more: seq<Action>)
    requires |more| <= 1
    ensures Run(file, hash, actions + more)
         == if more == [] then Run(file, hash, actions) else Step(Run(file, hash, actions), more[0], file, hash)
  {
    if more == [] {
      assert actions + more == actions;
    } else {
      assert (actions + more)[..|actions|] == actions;
    }
  }

  /** Every run over byte streams is a run over channels of messages, by the same steps. */
  lemma {:induction false} BytesRefineMessages(file: seq<Byte>, hash: Hash, actions: seq<ByteAction>,
                                               chunks: Codec<Chunk>, acks: Codec<Ack>)
    returns (moves: seq<Action>)
    requires Suitable(file, hash, chunks, acks)
    ensures Simulates(ByteRun(file, hash, actions, chunks, acks), Run(file, hash, moves), chunks, acks)
    ensures OffsetsInv(Run(file, hash, moves), file) && forall a :: a in moves ==> Move(a) in actions
  {
    if actions == [] {
      moves := [];
      assert Encoded<Chunk>([], chunks) == [] && Encoded<Ack>([], acks) == [];
    } else {
      var before, last := actions[..|actions| - 1], actions[|actions| - 1];
      var b := ByteRun(file, hash, before, chunks, acks);
      var earlier := BytesRefineMessages(file, hash, before, chunks, acks);
      StepSimulates(b, Run(file, hash, earlier), last, file, hash, chunks, acks);
      moves := earlier + Meaning(b, last, chunks, acks);
      RunAppend(file, hash, earlier, Meaning(b, last, chunks, acks));
      assert actions == before + [last];
    }
  }

  /** So the transfer is safe over byte streams, however their bytes are cut into pieces. */
  lemma ByteTransferSafety(file: seq<Byte>, hash: Hash, actions: seq<ByteAction>, chunks: Codec<Chunk>,
                           acks: Codec<Ack>)
    requires Suitable(file, hash, chunks, acks)
    requires forall a :: a in actions && a.Move? && a.a.Tamper? ==> Unforged(a.a.data, file, hash)
    ensures var s := ByteRun(file, hash, actions, chunks, acks).core;
            && s.acked <= file && s.acked == s.receiver.data + Unkept(s.receiver)
            && (s.sender.SentOk? ==> s.sender.total == |file| && s.acked == file)
            && (s.receiver.ReceivedOk? ==> s.receiver.total == |file| && s.output == Some(file))
            && (s.output.Some? ==> s.output.value <= file && ReceiverEnded(s))
  {
    var moves := BytesRefineMessages(file, hash, actions, chunks, acks);
    forall a | a in moves && a.Tamper?
      ensures Unforged(a.data, file, hash)
    {
      assert Move(a) in actions;
    }
    TransferSafety(file, hash, moves);
  }
}
