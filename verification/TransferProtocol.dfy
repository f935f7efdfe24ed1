// A sender and a receiver of one file, running against each other over two FIFO channels.
// Every read, write, local update and failure is a step of its own. `TransferBytes` shows that
// channels of whole messages are enough.
module TransferProtocol {
  import opened Types
  import opened Framing
  import opened Transfer

  datatype Sender =
    | Sending(offset: nat, remaining: seq<Byte>)              // at the head of the loop
    | AwaitingAck(offset: nat, n: nat, remaining: seq<Byte>)  // chunk written, ACK not read
    | SentOk(total: nat)
    | SendFailed

  datatype Receiver =
    | Reading(data: seq<Byte>)                              // at the head of the loop
    | Verified(data: seq<Byte>, chunk: Chunk, ok: bool)     // hash checked, ACK not written
    | Acked(data: seq<Byte>, chunk: Chunk, ok: bool)        // ACK written, bytes not yet kept
    | Writing(data: seq<Byte>)                              // last chunk kept, file not written
    | ReceivedOk(data: seq<Byte>, total: nat)
    | ReceiveFailed(data: seq<Byte>, unkept: seq<Byte>)     // `unkept` was acknowledged, then lost

  /** The last four fields are history: the chunks written so far, how many of them got a positive
      ACK, the bytes of those, and whether the channel has changed anything. */
  datatype State = State(sender: Sender, receiver: Receiver, toReceiver: seq<Chunk>, toSender: seq<Ack>,
                         output: Option<seq<Byte>>,
                         sent: seq<Chunk>, accepted: nat, acked: seq<Byte>, tampered: bool)

  datatype Action =
    | SenderLoop | ReadAck | SenderFails
    | ReadChunk | WriteAck | KeepChunk | WriteFile | ReceiverFails
    | WriteFails(written: Option<nat>)    // the file stays untouched, or gets this many bytes
    | Tamper(data: seq<Byte>)

  function Init(file: seq<Byte>): State {
    State(Sending(0, file), Reading([]), [], [], None, [], 0, [], false)
  }

  predicate SenderEnded(s: State) {
    s.sender.SentOk? || s.sender.SendFailed?
  }

  predicate ReceiverEnded(s: State) {
    s.receiver.ReceivedOk? || s.receiver.ReceiveFailed?
  }

  predicate Enabled(s: State, a: Action) {
    match a
    case SenderLoop => s.sender.Sending?
    case ReadAck => s.sender.AwaitingAck? && s.toSender != []
    case SenderFails => !SenderEnded(s)           // ACK timeout, or the stream breaks
    case ReadChunk => s.receiver.Reading? && s.toReceiver != []
    case WriteAck => s.receiver.Verified?
    case KeepChunk => s.receiver.Acked?
    case WriteFile => s.receiver.Writing?
    case ReceiverFails =>                         // chunk timeout, or the stream breaks
      s.receiver.Reading? || s.receiver.Verified? || s.receiver.Acked?
    case WriteFails(_) => s.receiver.Writing?
    case Tamper(_) => s.toReceiver != []
  }

  /** Bytes that were acknowledged but are not kept, or not yet. */
  function Unkept(r: Receiver): seq<Byte> {
    match r
    case Acked(_, chunk, ok) => if ok then chunk.data else []
    case ReceiveFailed(_, unkept) => unkept
    case _ => []
  }

  function Apply(s: State, a: Action, file: seq<Byte>, hash: Hash): State
    requires Enabled(s, a)
  {
    match a
    case SenderLoop =>
      if s.sender.remaining == [] then s.(sender := SentOk(|file|))
      else
        var n := Min(|s.sender.remaining|, CHUNK_SIZE);
        var chunk, rest := s.sender.remaining[..n], s.sender.remaining[n..];
        var message := Chunk(s.sender.offset, chunk, rest == [], hash(chunk));
        s.(sender := AwaitingAck(s.sender.offset, n, rest),
           toReceiver := s.toReceiver + [message], sent := s.sent + [message])
    case ReadAck =>
      var s' := s.(toSender := s.toSender[1..]);
      if s.toSender[0].ok then s'.(sender := Sending(s.sender.offset + s.sender.n, s.sender.remaining))
      else s'.(sender := SendFailed)
    case SenderFails => s.(sender := SendFailed)
    case ReadChunk =>
      var chunk := s.toReceiver[0];
      s.(toReceiver := s.toReceiver[1..], receiver := Verified(s.receiver.data, chunk, Intact(chunk, hash)))
    case WriteAck =>
      var r := s.receiver;
      s.(receiver := Acked(r.data, r.chunk, r.ok), toSender := s.toSender + [Ack(r.chunk.offset, r.ok)],
         accepted := s.accepted + (if r.ok then 1 else 0), acked := s.acked + (if r.ok then r.chunk.data else []))
    case KeepChunk =>
      var r := s.receiver;
      if !r.ok then s.(receiver := ReceiveFailed(r.data, []))
      else if r.chunk.isLast then s.(receiver := Writing(r.data + r.chunk.data))
      else s.(receiver := Reading(r.data + r.chunk.data))
    case WriteFile =>
      s.(output := Some(s.receiver.data), receiver := ReceivedOk(s.receiver.data, |s.receiver.data|))
    case ReceiverFails => s.(receiver := ReceiveFailed(s.receiver.data, Unkept(s.receiver)))
    case WriteFails(written) =>
      s.(output := if written.None? then s.output else Some(s.receiver.data[..Min(written.value, |s.receiver.data|)]),
         receiver := ReceiveFailed(s.receiver.data, []))
    case Tamper(data) =>
      s.(toReceiver := [s.toReceiver[0].(data := data)] + s.toReceiver[1..], tampered := true)
  }

  function Step(s: State, a: Action, file: seq<Byte>, hash: Hash): State {
    if Enabled(s, a) then Apply(s, a, file, hash) else s
  }

  /** Any schedule; an action that is not enabled when its turn comes does nothing. */
  function Run(file: seq<Byte>, hash: Hash, actions: seq<Action>): State {
    if actions == [] then Init(file)
    else Step(Run(file, hash, actions[..|actions| - 1]), actions[|actions| - 1], file, hash)
  }

  // ── Invariants ─────────────────────────────────────────────────────────────────────────

  /** The data does not collide with a chunk of the file: it passes that chunk's check only if it is
      that chunk's data. */
  ghost predicate Unforged(data: seq<Byte>, file: seq<Byte>, hash: Hash) {
    forall i: nat :: i < ChunkCount(file) && hash(data) == ChunkAt(file, i, hash).sha ==>
      data == ChunkAt(file, i, hash).data
  }

  /** A chunk on its way is the right one, except that its data may have been altered. */
  ghost predicate OnItsWay(c: Chunk, s: State, file: seq<Byte>, hash: Hash) {
    && 0 < |s.sent| <= ChunkCount(file)
    && c == ChunkAt(file, |s.sent| - 1, hash).(data := c.data)
    && (!s.tampered || Intact(c, hash) ==> c.data == ChunkAt(file, |s.sent| - 1, hash).data)
    && s.accepted == |s.sent| - 1
  }

  /** What is kept and what is not add up to what was acknowledged, which is a prefix of the file. */
  ghost predicate HistoryInv(s: State, file: seq<Byte>, hash: Hash) {
    && s.accepted <= |s.sent| <= ChunkCount(file)
    && s.sent == Chunks(file, hash)[..|s.sent|]
    && s.acked == file[..Boundary(file, s.accepted)]
    && s.acked == s.receiver.data + Unkept(s.receiver)
    && |Unkept(s.receiver)| <= CHUNK_SIZE
  }

  /** At most one chunk or ACK is outstanding, and it is the latest one. */
  ghost predicate ChannelInv(s: State, file: seq<Byte>, hash: Hash) {
    && |s.toReceiver| + |s.toSender| + (if s.receiver.Verified? then 1 else 0) <= 1
    && (s.toReceiver != [] ==> OnItsWay(s.toReceiver[0], s, file, hash))
    && (s.receiver.Verified? ==>
          OnItsWay(s.receiver.chunk, s, file, hash) && s.receiver.ok == Intact(s.receiver.chunk, hash))
    && (s.toSender != [] && s.toSender[0].ok ==> s.accepted == |s.sent|)
    && (s.toSender != [] && !s.toSender[0].ok ==> s.tampered)
  }

  ghost predicate SenderInv(s: State, file: seq<Byte>) {
    match s.sender
    case Sending(offset, remaining) =>
      && s.toReceiver == [] && s.toSender == [] && !s.receiver.Verified?
      && s.accepted == |s.sent|
      && offset == Boundary(file, |s.sent|) && remaining == file[offset..]
    case AwaitingAck(offset, n, remaining) =>
      && 0 < |s.sent|
      && offset + n == Boundary(file, |s.sent|) && remaining == file[offset + n..]
    case SentOk(total) =>
      && s.toReceiver == [] && s.toSender == [] && !s.receiver.Verified?
      && total == |file| && s.accepted == |s.sent| == ChunkCount(file)
    case SendFailed => true
  }

  ghost predicate ReceiverInv(s: State, file: seq<Byte>) {
    match s.receiver
    case Reading(_) => s.output == None && (s.accepted == 0 || s.accepted < ChunkCount(file))
    case Verified(_, _, _) => s.output == None && s.accepted < ChunkCount(file)
    case Acked(_, chunk, ok) =>
      s.output == None
      && if ok then s.accepted > 0 && (chunk.isLast <==> s.accepted == ChunkCount(file)) else s.tampered
    case Writing(_) => s.output == None && 0 < s.accepted == ChunkCount(file)
    case ReceivedOk(data, total) => 0 < s.accepted == ChunkCount(file) && s.output == Some(data) && total == |data|
    case ReceiveFailed(data, _) => s.output.Some? ==> s.accepted == ChunkCount(file) && s.output.value <= data
  }

  ghost predicate Inv(s: State, file: seq<Byte>, hash: Hash) {
    HistoryInv(s, file, hash) && ChannelInv(s, file, hash) && SenderInv(s, file) && ReceiverInv(s, file)
  }

  lemma SenderLoopKeepsInv(s: State, file: seq<Byte>, hash: Hash)
    requires Inv(s, file, hash) && s.sender.Sending?
    ensures Inv(Apply(s, SenderLoop, file, hash), file, hash)
  {
    var k := |s.sent|;
    ChunkCountMeaning(file, k);
    if s.sender.remaining != [] {
      CutIsChunk(file, k, hash);
      assert Chunks(file, hash)[..k + 1] == s.sent + [ChunkAt(file, k, hash)];
    }
  }

  lemma ReadAckKeepsInv(s: State, file: seq<Byte>, hash: Hash)
    requires Inv(s, file, hash) && Enabled(s, ReadAck)
    ensures Inv(Apply(s, ReadAck, file, hash), file, hash)
  {
  }

  lemma ReadChunkKeepsInv(s: State, file: seq<Byte>, hash: Hash)
    requires Inv(s, file, hash) && Enabled(s, ReadChunk)
    ensures Inv(Apply(s, ReadChunk, file, hash), file, hash)
  {
  }

  lemma ChunkExtends(file: seq<Byte>, i: nat, hash: Hash)
    requires i < ChunkCount(file)
    ensures file[..Boundary(file, i + 1)] == file[..Boundary(file, i)] + ChunkAt(file, i, hash).data
    ensures 0 < |ChunkAt(file, i, hash).data| <= CHUNK_SIZE
  {
    ChunkCountMeaning(file, i);
  }

  lemma RefusalKeepsInv(s: State, file: seq<Byte>, hash: Hash)
    requires Inv(s, file, hash) && s.receiver.Verified? && !s.receiver.ok
    ensures Inv(Apply(s, WriteAck, file, hash), file, hash)
  {
  }

  lemma AcceptanceKeepsHistory(s: State, file: seq<Byte>, hash: Hash)
    requires HistoryInv(s, file, hash) && ChannelInv(s, file, hash) && s.receiver.Verified? && s.receiver.ok
    ensures HistoryInv(Apply(s, WriteAck, file, hash), file, hash)
    ensures s.receiver.chunk == ChunkAt(file, s.accepted, hash)
  {
    assert s.receiver.chunk == ChunkAt(file, |s.sent| - 1, hash);
    ChunkExtends(file, |s.sent| - 1, hash);
  }

  lemma AcceptanceKeepsInv(s: State, file: seq<Byte>, hash: Hash)
    requires Inv(s, file, hash) && s.receiver.Verified? && s.receiver.ok
    ensures Inv(Apply(s, WriteAck, file, hash), file, hash)
  {
    AcceptanceKeepsHistory(s, file, hash);
  }

  lemma WriteAckKeepsInv(s: State, file: seq<Byte>, hash: Hash)
    requires Inv(s, file, hash) && Enabled(s, WriteAck)
    ensures Inv(Apply(s, WriteAck, file, hash), file, hash)
  {
    if s.receiver.ok {
      AcceptanceKeepsInv(s, file, hash);
    } else {
      RefusalKeepsInv(s, file, hash);
    }
  }

  lemma KeepChunkKeepsInv(s: State, file: seq<Byte>, hash: Hash)
    requires Inv(s, file, hash) && Enabled(s, KeepChunk)
    ensures Inv(Apply(s, KeepChunk, file, hash), file, hash)
  {
  }

  lemma TamperKeepsInv(s: State, data: seq<Byte>, file: seq<Byte>, hash: Hash)
    requires Inv(s, file, hash) && Enabled(s, Tamper(data)) && Unforged(data, file, hash)
    ensures Inv(Apply(s, Tamper(data), file, hash), file, hash)
  {
  }

  /** Ends and failures on one side leave the other and the channels alone. */
  lemma EndKeepsInv(s: State, a: Action, file: seq<Byte>, hash: Hash)
    requires Inv(s, file, hash) && Enabled(s, a)
    requires a.SenderFails? || a.WriteFile? || a.ReceiverFails? || a.WriteFails?
    ensures Inv(Apply(s, a, file, hash), file, hash)
  {
  }

  lemma StepKeepsInv(s: State, a: Action, file: seq<Byte>, hash: Hash)
    requires Inv(s, file, hash)
    requires a.Tamper? ==> Unforged(a.data, file, hash)
    ensures Inv(Step(s, a, file, hash), file, hash)
  {
    if Enabled(s, a) {
      match a
      case SenderLoop => SenderLoopKeepsInv(s, file, hash);
      case ReadAck => ReadAckKeepsInv(s, file, hash);
      case ReadChunk => ReadChunkKeepsInv(s, file, hash);
      case WriteAck => WriteAckKeepsInv(s, file, hash);
      case KeepChunk => KeepChunkKeepsInv(s, file, hash);
      case Tamper(data) => TamperKeepsInv(s, data, file, hash);
      case _ => EndKeepsInv(s, a, file, hash);
    }
  }

  /** Whatever the channel puts in does not collide with a chunk of the file. */
  ghost predicate NoForgery(file: seq<Byte>, hash: Hash, actions: seq<Action>) {
    forall a :: a in actions && a.Tamper? ==> Unforged(a.data, file, hash)
  }

  lemma {:induction false} Reachable(file: seq<Byte>, hash: Hash, actions: seq<Action>)
    requires NoForgery(file, hash, actions)
    ensures Inv(Run(file, hash, actions), file, hash)
    ensures Run(file, hash, actions).tampered ==> exists a :: a in actions && a.Tamper?
  {
    if actions != [] {
      var before, a := actions[..|actions| - 1], actions[|actions| - 1];
      assert forall b :: b in before ==> b in actions;
      Reachable(file, hash, before);
      StepKeepsInv(Run(file, hash, before), a, file, hash);
      assert a in actions;
    } else {
      ChunkCountMeaning(file, 0);
    }
  }

  // ── Safety ─────────────────────────────────────────────────────────────────────────────

  /** In every interleaving, with failures at any moment: one chunk or ACK is outstanding at most;
      the acknowledged bytes are a prefix of the file, and the receiver has kept all of them but the
      last chunk at most; a sender that returns Ok had every byte acknowledged; a receiver that
      returns Ok has written exactly the file, and one that fails leaves at most a prefix of it. */
  lemma TransferSafety(file: seq<Byte>, hash: Hash, actions: seq<Action>)
    requires NoForgery(file, hash, actions)
    ensures var s := Run(file, hash, actions);
            && |s.toReceiver| + |s.toSender| <= 1
            && s.acked <= file
            && s.acked == s.receiver.data + Unkept(s.receiver) && |Unkept(s.receiver)| <= CHUNK_SIZE
            && (s.sender.SentOk? ==> s.sender.total == |file| && s.acked == file)
            && (s.receiver.ReceivedOk? ==> s.receiver.total == |file| && s.output == Some(file))
            && (s.output.Some? ==> s.acked == file && s.output.value <= file && ReceiverEnded(s))
  {
    var s := Run(file, hash, actions);
    Reachable(file, hash, actions);
    ChunkCountMeaning(file, ChunkCount(file));
    assert file[..|file|] == file;
  }

  /** No step is left for either process. */
  predicate Quiet(s: State) {
    forall a :: a in [SenderLoop, ReadAck, ReadChunk, WriteAck, KeepChunk, WriteFile] ==> !Enabled(s, a)
  }

  predicate IsFault(a: Action) {
    a.SenderFails? || a.ReceiverFails? || a.WriteFails?
  }

  lemma StepKeepsFaultFree(s: State, a: Action, file: seq<Byte>, hash: Hash)
    requires ChannelInv(s, file, hash) && SenderInv(s, file) && ReceiverInv(s, file) && FaultFreeInv(s) && !IsFault(a)
    ensures FaultFreeInv(Step(s, a, file, hash))
  {
  }

  lemma {:induction false} NoSelfInflictedFailure(file: seq<Byte>, hash: Hash, actions: seq<Action>)
    requires NoForgery(file, hash, actions)
    requires forall a :: a in actions ==> !IsFault(a)
    ensures FaultFreeInv(Run(file, hash, actions))
  {
    if actions != [] {
      var before, a := actions[..|actions| - 1], actions[|actions| - 1];
      assert forall b :: b in before ==> b in actions;
      NoSelfInflictedFailure(file, hash, before);
      Reachable(file, hash, before);
      assert a in actions;
      StepKeepsFaultFree(Run(file, hash, before), a, file, hash);
    }
  }

  /** Without timeouts, a side that has not ended has work or a message to wait for, and a
      failure on one side is known, or about to be known, on the other. */
  ghost predicate FaultFreeInv(s: State) {
    var rejected := (s.receiver.Acked? && !s.receiver.ok) || s.receiver.ReceiveFailed?;
    && (s.sender.AwaitingAck? ==> s.toReceiver != [] || s.toSender != [] || s.receiver.Verified?)
    && (rejected <==> s.sender.SendFailed? || (s.toSender != [] && !s.toSender[0].ok))
    && (rejected ==> s.toReceiver == [])
    && (rejected ==> s.tampered)
    && (s.receiver.ReceiveFailed? ==> s.output == None)
  }

  /** If altered chunks are the only trouble, a transfer that comes to rest has either delivered
      the original file and told both sides so, or written nothing and failed on both sides. */
  lemma TamperingIsAllOrNothing(file: seq<Byte>, hash: Hash, actions: seq<Action>)
    requires file != [] && NoForgery(file, hash, actions)
    requires forall a :: a in actions ==> !IsFault(a)
    requires Quiet(Run(file, hash, actions))
    ensures var s := Run(file, hash, actions);
            || (s.output == Some(file) && s.sender == SentOk(|file|) && s.receiver == ReceivedOk(file, |file|))
            || (s.output == None && s.sender.SendFailed? && s.receiver.ReceiveFailed?)
  {
    var s := Run(file, hash, actions);
    Reachable(file, hash, actions);
    NoSelfInflictedFailure(file, hash, actions);
    QuietEnds(s, file, hash);
    ChunkCountMeaning(file, ChunkCount(file));
    assert file[..|file|] == file;
  }

  lemma QuietEnds(s: State, file: seq<Byte>, hash: Hash)
    requires Inv(s, file, hash) && FaultFreeInv(s) && file != [] && Quiet(s)
    ensures (s.sender.SentOk? && s.receiver.ReceivedOk?) || (s.sender.SendFailed? && s.receiver.ReceiveFailed?)
  {
    assert !Enabled(s, SenderLoop) && !Enabled(s, ReadAck) && !Enabled(s, ReadChunk);
    assert !Enabled(s, WriteAck) && !Enabled(s, KeepChunk) && !Enabled(s, WriteFile);
    ChunkCountMeaning(file, 0);
  }

  // ── Progress ───────────────────────────────────────────────────────────────────────────

  /** Steps still to come: five for each chunk not yet sent, the rest of the one under way, and
      one for each side to end. */
  function Remaining(s: State, file: seq<Byte>): int {
    5 * (ChunkCount(file) - |s.sent|)
    + 4 * |s.toReceiver| + (if s.receiver.Verified? then 3 else 0) + (if s.receiver.Acked? then 1 else 0)
    + |s.toSender|
    + (if SenderEnded(s) then 0 else 1) + (if ReceiverEnded(s) then 0 else 1)
  }

  /** How many of the actions found something to do. */
  function Effective(file: seq<Byte>, hash: Hash, actions: seq<Action>): nat {
    if actions == [] then 0
    else
      var before, a := actions[..|actions| - 1], actions[|actions| - 1];
      Effective(file, hash, before) + if Enabled(Run(file, hash, before), a) then 1 else 0
  }

  predicate FaultFree(actions: seq<Action>) {
    forall a :: a in actions ==> !IsFault(a) && !a.Tamper?
  }

  /** On a fault-free stream every step uses up exactly one unit of what remains. */
  lemma {:induction false} EveryStepCounts(file: seq<Byte>, hash: Hash, actions: seq<Action>)
    requires FaultFree(actions)
    ensures Effective(file, hash, actions) + Remaining(Run(file, hash, actions), file) == 5 * ChunkCount(file) + 2
    ensures Remaining(Run(file, hash, actions), file) >= 0
  {
    Reachable(file, hash, actions);
    if actions != [] {
      var before, a := actions[..|actions| - 1], actions[|actions| - 1];
      assert forall b :: b in before ==> b in actions;
      assert a in actions;
      EveryStepCounts(file, hash, before);
      var s := Run(file, hash, before);
      Reachable(file, hash, before);
      NoSelfInflictedFailure(file, hash, before);
      ChunkCountMeaning(file, |s.sent|);
      if Enabled(s, a) {
        StepUsesOne(s, a, file, hash);
      }
    }
  }

  lemma StepUsesOne(s: State, a: Action, file: seq<Byte>, hash: Hash)
    requires Inv(s, file, hash) && FaultFreeInv(s) && !s.tampered && Enabled(s, a)
    requires !IsFault(a) && !a.Tamper?
    ensures Remaining(Step(s, a, file, hash), file) == Remaining(s, file) - 1
  {
    ChunkCountMeaning(file, |s.sent|);
  }

  lemma QuietSuccess(s: State, file: seq<Byte>, hash: Hash)
    requires Inv(s, file, hash) && FaultFreeInv(s) && !s.tampered && Quiet(s)
    ensures |s.sent| == ChunkCount(file) && s.sender == SentOk(|file|)
    ensures Remaining(s, file) == if file == [] then 1 else 0
    ensures if file == [] then s.receiver == Reading([]) && s.output == None
            else s.receiver == ReceivedOk(file, |file|) && s.output == Some(file)
  {
    assert !Enabled(s, SenderLoop) && !Enabled(s, ReadAck) && !Enabled(s, ReadChunk);
    assert !Enabled(s, WriteAck) && !Enabled(s, KeepChunk) && !Enabled(s, WriteFile);
    ChunkCountMeaning(file, 0);
    ChunkCountMeaning(file, ChunkCount(file));
    assert file[..|file|] == file;
  }

  /** A fault-free transfer that comes to rest has taken exactly 5 * ceil(n / 65536) + 2 steps,
      sent every chunk once and in order, and returned n on both sides; for an empty file the
      receiver is left waiting instead. */
  lemma FaultFreeTransfer(file: seq<Byte>, hash: Hash, actions: seq<Action>)
    requires FaultFree(actions) && Quiet(Run(file, hash, actions))
    ensures var s := Run(file, hash, actions);
            && s.sent == Chunks(file, hash)
            && s.sender == SentOk(|file|)
            && (file != [] <==> s.receiver.ReceivedOk?)
            && (file != [] ==>
                  s.receiver == ReceivedOk(file, |file|) && s.output == Some(file)
                  && Effective(file, hash, actions) == 5 * ChunkCount(file) + 2)
            && (file == [] ==> s.receiver == Reading([]) && s.output == None)
  {
    Reachable(file, hash, actions);
    NoSelfInflictedFailure(file, hash, actions);
    EveryStepCounts(file, hash, actions);
    QuietSuccess(Run(file, hash, actions), file, hash);
    assert Chunks(file, hash)[..ChunkCount(file)] == Chunks(file, hash);
  }

  /** With altered data and failures, too, every step that is not an alteration lowers what remains. */
  lemma StepLowers(s: State, a: Action, file: seq<Byte>, hash: Hash)
    requires Inv(s, file, hash) && Enabled(s, a) && !a.Tamper?
    ensures Remaining(Step(s, a, file, hash), file) < Remaining(s, file)
  {
    ChunkCountMeaning(file, |s.sent|);
  }

  /** How many steps other than alterations a run has taken. */
  function Steps(file: seq<Byte>, hash: Hash, actions: seq<Action>): nat {
    if actions == [] then 0
    else
      var before, a := actions[..|actions| - 1], actions[|actions| - 1];
      Steps(file, hash, before) + if Enabled(Run(file, hash, before), a) && !a.Tamper? then 1 else 0
  }

  /** No run, however it fails and whatever is altered, takes more steps than a complete transfer. */
  lemma {:induction false} EveryRunIsShort(file: seq<Byte>, hash: Hash, actions: seq<Action>)
    requires NoForgery(file, hash, actions)
    ensures 0 <= Remaining(Run(file, hash, actions), file)
    ensures Steps(file, hash, actions) + Remaining(Run(file, hash, actions), file) <= 5 * ChunkCount(file) + 2
  {
    Reachable(file, hash, actions);
    if actions != [] {
      var before, a := actions[..|actions| - 1], actions[|actions| - 1];
      assert forall b :: b in before ==> b in actions;
      EveryRunIsShort(file, hash, before);
      Reachable(file, hash, before);
      if Enabled(Run(file, hash, before), a) && !a.Tamper? {
        StepLowers(Run(file, hash, before), a, file, hash);
      }
    }
  }

  /** A step of the two processes, neither a failure nor an alteration. */
  predicate IsOrderly(a: Action) {
    a in [SenderLoop, ReadAck, ReadChunk, WriteAck, KeepChunk, WriteFile]
  }

  lemma OrderlyStep(s: State) returns (a: Action)
    requires !Quiet(s)
    ensures IsOrderly(a) && Enabled(s, a)
  {
    a :| IsOrderly(a) && Enabled(s, a);
  }

  lemma OneMore(file: seq<Byte>, hash: Hash, actions: seq<Action>, a: Action)
    requires NoForgery(file, hash, actions) && Enabled(Run(file, hash, actions), a) && IsOrderly(a)
    ensures NoForgery(file, hash, actions + [a])
    ensures 0 <= Remaining(Run(file, hash, actions + [a]), file) < Remaining(Run(file, hash, actions), file)
  {
    assert (actions + [a])[..|actions|] == actions;
    Reachable(file, hash, actions);
    StepLowers(Run(file, hash, actions), a, file, hash);
    EveryRunIsShort(file, hash, actions + [a]);
  }

  /** Every run, whatever failed and was altered in it, comes to rest when the processes go on. */
  lemma {:induction false} TransferEnds(file: seq<Byte>, hash: Hash, actions: seq<Action>) returns (more: seq<Action>)
    requires NoForgery(file, hash, actions)
    ensures forall a :: a in more ==> IsOrderly(a)
    ensures Quiet(Run(file, hash, actions + more))
    decreases Remaining(Run(file, hash, actions), file)
  {
    EveryRunIsShort(file, hash, actions);
    if Quiet(Run(file, hash, actions)) {
      more := [];
      assert actions + more == actions;
    } else {
      var a := OrderlyStep(Run(file, hash, actions));
      OneMore(file, hash, actions, a);
      var rest := TransferEnds(file, hash, actions + [a]);
      more := [a] + rest;
      assert actions + more == actions + [a] + rest;
    }
  }

  /** A fault-free transfer can always go on to such a state of rest. */
  lemma FaultFreeTransferEnds(file: seq<Byte>, hash: Hash, actions: seq<Action>) returns (more: seq<Action>)
    requires FaultFree(actions)
    ensures FaultFree(actions + more) && Quiet(Run(file, hash, actions + more))
  {
    more := TransferEnds(file, hash, actions);
  }

  /** If alterations are the only trouble, a transfer can always go on until both sides have ended, and
      they end in one of two ways: with the original file, or with errors and nothing written. */
  lemma AlteredTransferEnds(file: seq<Byte>, hash: Hash, actions: seq<Action>) returns (more: seq<Action>)
    requires file != [] && NoForgery(file, hash, actions)
    requires forall a :: a in actions ==> !IsFault(a)
    ensures forall a :: a in more ==> IsOrderly(a)
    ensures var s := Run(file, hash, actions + more);
            || (s.output == Some(file) && s.sender == SentOk(|file|) && s.receiver == ReceivedOk(file, |file|))
            || (s.output == None && s.sender.SendFailed? && s.receiver.ReceiveFailed?)
  {
    more := TransferEnds(file, hash, actions);
    assert NoForgery(file, hash, actions + more);
    TamperingIsAllOrNothing(file, hash, actions + more);
  }

  // ── What the sender's Ok means ─────────────────────────────────────────────────────────

  predicate ReceiverSound(actions: seq<Action>) {
    forall a :: a in actions ==> !a.ReceiverFails? && !a.WriteFails?
  }

  lemma RejectionStays(s: State, a: Action, file: seq<Byte>, hash: Hash)
    requires Inv(s, file, hash) && !a.ReceiverFails? && !a.WriteFails?
    requires RejectedEarly(s, file)
    ensures RejectedEarly(Step(s, a, file, hash), file)
  {
  }

  /** A receiver that gave up without failing itself had refused a chunk. */
  predicate RejectedEarly(s: State, file: seq<Byte>) {
    (s.receiver.Acked? && !s.receiver.ok) || s.receiver.ReceiveFailed? ==> s.accepted < ChunkCount(file)
  }

  lemma {:induction false} SoundReceiverRejects(file: seq<Byte>, hash: Hash, actions: seq<Action>)
    requires NoForgery(file, hash, actions) && ReceiverSound(actions)
    ensures RejectedEarly(Run(file, hash, actions), file)
  {
    if actions != [] {
      var before, a := actions[..|actions| - 1], actions[|actions| - 1];
      assert forall b :: b in before ==> b in actions;
      assert a in actions;
      SoundReceiverRejects(file, hash, before);
      Reachable(file, hash, before);
      RejectionStays(Run(file, hash, before), a, file, hash);
    }
  }

  /** If the receiver itself never fails, the sender's Ok does mean that the file gets written: at the
      latest when the receiver has nothing left to do. */
  lemma OkMeansWritten(file: seq<Byte>, hash: Hash, actions: seq<Action>)
    requires file != [] && NoForgery(file, hash, actions) && ReceiverSound(actions)
    requires Run(file, hash, actions).sender.SentOk? && Quiet(Run(file, hash, actions))
    ensures Run(file, hash, actions).receiver == ReceivedOk(file, |file|)
    ensures Run(file, hash, actions).output == Some(file)
  {
    var s := Run(file, hash, actions);
    Reachable(file, hash, actions);
    SoundReceiverRejects(file, hash, actions);
    ChunkCountMeaning(file, 0);
    ChunkCountMeaning(file, ChunkCount(file));
    assert !Enabled(s, WriteAck) && !Enabled(s, KeepChunk) && !Enabled(s, WriteFile);
    assert file[..|file|] == file;
  }

  // ── Why the promises are not stronger ──────────────────────────────────────────────────

  predicate Unaltered(actions: seq<Action>) {
    forall a :: a in actions ==> !a.Tamper?
  }

  lemma Extend(file: seq<Byte>, hash: Hash, actions: seq<Action>, a: Action) returns (more: seq<Action>)
    ensures more == actions + [a] && Run(file, hash, more) == Step(Run(file, hash, actions), a, file, hash)
    ensures Unaltered(actions) && !a.Tamper? ==> Unaltered(more)
  {
    more := actions + [a];
    assert more[..|actions|] == actions;
  }

  // ── Failures and ends ──────────────────────────────────────────────────────────────────

  /** Whatever has happened, a sender that has not returned can fail. */
  lemma SenderCanAlwaysFail(file: seq<Byte>, hash: Hash, actions: seq<Action>)
    ensures var s, s' := Run(file, hash, actions), Run(file, hash, actions + [SenderFails]);
            s.sender.Sending? || s.sender.AwaitingAck? ==> s' == s.(sender := SendFailed)
  {
    var more := Extend(file, hash, actions, SenderFails);
  }

  /** So can a receiver, which until it writes the file loses only the chunk just acknowledged. */
  lemma ReceiverCanAlwaysFail(file: seq<Byte>, hash: Hash, actions: seq<Action>)
    ensures var s, s' := Run(file, hash, actions), Run(file, hash, actions + [ReceiverFails]);
            s.receiver.Reading? || s.receiver.Verified? || s.receiver.Acked? ==>
              && s' == s.(receiver := s'.receiver) && s'.receiver.ReceiveFailed? && s'.receiver.data == s.receiver.data
              && s'.receiver.unkept == if s.receiver.Acked? && s.receiver.ok then s.receiver.chunk.data else []
  {
    var more := Extend(file, hash, actions, ReceiverFails);
  }

  /** And when it writes the file, the disk keeps what it had or takes any prefix. */
  lemma WriteCanAlwaysFail(file: seq<Byte>, hash: Hash, actions: seq<Action>, written: Option<nat>)
    requires Run(file, hash, actions).receiver.Writing?
    requires written.Some? ==> written.value <= |Run(file, hash, actions).receiver.data|
    ensures var s, s' := Run(file, hash, actions), Run(file, hash, actions + [WriteFails(written)]);
            && s' == s.(receiver := ReceiveFailed(s.receiver.data, []), output := s'.output)
            && s'.output == if written.None? then s.output else Some(s.receiver.data[..written.value])
  {
    var more := Extend(file, hash, actions, WriteFails(written));
  }

  /** A side that has returned does nothing more, whatever happens next. */
  lemma {:induction false} EndsAreForGood(file: seq<Byte>, hash: Hash, actions: seq<Action>, more: seq<Action>)
    ensures var s, s' := Run(file, hash, actions), Run(file, hash, actions + more);
            && (s.sender.SentOk? || s.sender.SendFailed? ==> s'.sender == s.sender && s'.sent == s.sent)
            && (s.receiver.ReceivedOk? || s.receiver.ReceiveFailed? ==>
                  s'.receiver == s.receiver && s'.output == s.output && s'.acked == s.acked)
  {
    if more == [] {
      assert actions + more == actions;
    } else {
      EndsAreForGood(file, hash, actions, more[..|more| - 1]);
      assert (actions + more)[..|actions + more| - 1] == actions + more[..|more| - 1];
    }
  }

  /** The first `k` chunks, which are not all, have been transferred. */
  function AfterChunks(file: seq<Byte>, k: nat, hash: Hash): State
    requires k <= ChunkCount(file)
  {
    State(Sending(Boundary(file, k), file[Boundary(file, k)..]), Reading(file[..Boundary(file, k)]), [], [], None,
          Chunks(file, hash)[..k], k, file[..Boundary(file, k)], false)
  }

  /** Chunk `k` has been written, and nobody has read it. */
  lemma ChunkIsSent(file: seq<Byte>, k: nat, hash: Hash)
    requires k < ChunkCount(file)
    ensures var s, chunk := AfterChunks(file, k, hash), ChunkAt(file, k, hash);
            Step(s, SenderLoop, file, hash)
              == s.(sender := AwaitingAck(Boundary(file, k), |chunk.data|, file[Boundary(file, k + 1)..]),
                    toReceiver := [chunk], sent := Chunks(file, hash)[..k + 1])
            && Boundary(file, k) + |chunk.data| == Boundary(file, k + 1)
  {
    ChunkCountMeaning(file, k);
    CutIsChunk(file, k, hash);
    assert Chunks(file, hash)[..k + 1] == Chunks(file, hash)[..k] + [ChunkAt(file, k, hash)];
  }

  /** Transferring one chunk that is not the last takes five steps. */
  lemma OneChunk(file: seq<Byte>, k: nat, hash: Hash, actions: seq<Action>) returns (more: seq<Action>)
    requires k + 1 < ChunkCount(file) && Unaltered(actions) && Run(file, hash, actions) == AfterChunks(file, k, hash)
    ensures Unaltered(more) && Run(file, hash, more) == AfterChunks(file, k + 1, hash)
  {
    ChunkIsSent(file, k, hash);
    ChunkExtends(file, k, hash);
    more := Extend(file, hash, actions, SenderLoop);
    more := Extend(file, hash, more, ReadChunk);
    more := Extend(file, hash, more, WriteAck);
    more := Extend(file, hash, more, KeepChunk);
    more := Extend(file, hash, more, ReadAck);
  }

  lemma {:induction false} FirstChunks(file: seq<Byte>, k: nat, hash: Hash) returns (actions: seq<Action>)
    requires k < ChunkCount(file)
    ensures Unaltered(actions) && Run(file, hash, actions) == AfterChunks(file, k, hash)
  {
    if k == 0 {
      actions := [];
      assert file[0..] == file && file[..0] == [] && Chunks(file, hash)[..0] == [];
    } else {
      actions := FirstChunks(file, k - 1, hash);
      actions := OneChunk(file, k - 1, hash, actions);
    }
  }

  /** For every file that is not empty, and with nothing altered: the sender can return Ok although the
      receiver, failing right after its last ACK, has lost the last chunk and written nothing. */
  lemma AcknowledgedButLost(file: seq<Byte>, hash: Hash) returns (actions: seq<Action>)
    requires file != []
    ensures Unaltered(actions)
    ensures var s := Run(file, hash, actions);
            && s.sender == SentOk(|file|) && s.output == None
            && s.receiver.ReceiveFailed? && s.receiver.data != file && s.receiver.data + s.receiver.unkept == file
  {
    ChunkCountMeaning(file, 0);
    var k := ChunkCount(file) - 1;
    ChunkCountMeaning(file, k);
    ChunkCountMeaning(file, k + 1);
    actions := FirstChunks(file, k, hash);
    ChunkIsSent(file, k, hash);
    ChunkExtends(file, k, hash);
    actions := Extend(file, hash, actions, SenderLoop);
    actions := Extend(file, hash, actions, ReadChunk);
    actions := Extend(file, hash, actions, WriteAck);
    actions := Extend(file, hash, actions, ReceiverFails);
    actions := Extend(file, hash, actions, ReadAck);
    assert file[|file|..] == [] && file[..|file|] == file;
    actions := Extend(file, hash, actions, SenderLoop);
  }

  /** After this run the sender's Ok, if it returned one, is borne out by what the receiver kept. */
  ghost predicate OkIsKept(file: seq<Byte>, hash: Hash, actions: seq<Action>) {
    NoForgery(file, hash, actions) && Run(file, hash, actions).sender.SentOk? ==>
      Run(file, hash, actions).receiver.data == file
  }

  /** In all runs the sender's Ok means that the receiver has kept the whole file, if and only if the
      file is empty; in any one run it does if and only if the receiver's last ACK did not outrun it. */
  lemma OkIsKeptOnlyOfNothing(file: seq<Byte>, hash: Hash)
    ensures (forall actions :: OkIsKept(file, hash, actions)) <==> file == []
    ensures forall actions :: NoForgery(file, hash, actions) && Run(file, hash, actions).sender.SentOk? ==>
              (OkIsKept(file, hash, actions) <==> Unkept(Run(file, hash, actions).receiver) == [])
  {
    forall actions | NoForgery(file, hash, actions) && Run(file, hash, actions).sender.SentOk?
      ensures OkIsKept(file, hash, actions) <==> Unkept(Run(file, hash, actions).receiver) == []
      ensures file == [] ==> OkIsKept(file, hash, actions)
    {
      TransferSafety(file, hash, actions);
      var r := Run(file, hash, actions).receiver;
      assert r.data + Unkept(r) == file && |r.data| + |Unkept(r)| == |file|;
    }
    if file != [] {
      var actions := AcknowledgedButLost(file, hash);
      assert NoForgery(file, hash, actions) && !OkIsKept(file, hash, actions);
    }
  }

  /** Data that collides with any chunk of the file is acknowledged in its place. */
  lemma ForgeryIsAcknowledged(file: seq<Byte>, k: nat, data: seq<Byte>, hash: Hash) returns (actions: seq<Action>)
    requires k < ChunkCount(file) && hash(data) == ChunkAt(file, k, hash).sha
    ensures Run(file, hash, actions).acked == file[..Boundary(file, k)] + data
    ensures Run(file, hash, actions).accepted == k + 1
  {
    actions := FirstChunks(file, k, hash);
    ChunkIsSent(file, k, hash);
    actions := Extend(file, hash, actions, SenderLoop);
    actions := Extend(file, hash, actions, Tamper(data));
    actions := Extend(file, hash, actions, ReadChunk);
    actions := Extend(file, hash, actions, WriteAck);
  }

  /** The acknowledged bytes are those of the file's first chunks. */
  predicate RightSoFar(s: State, file: seq<Byte>) {
    s.acked == file[..Boundary(file, s.accepted)]
  }

  /** Against a channel that may put in any data, the receiver acknowledges only the file's own bytes
      in every run exactly if no data collides with a chunk of the file. */
  lemma IntegrityNeedsNoCollision(file: seq<Byte>, hash: Hash)
    ensures (forall actions :: RightSoFar(Run(file, hash, actions), file))
        <==> (forall data :: Unforged(data, file, hash))
  {
    if forall data :: Unforged(data, file, hash) {
      forall actions
        ensures RightSoFar(Run(file, hash, actions), file)
      {
        Reachable(file, hash, actions);
      }
    } else {
      var data :| !Unforged(data, file, hash);
      var k: nat :| k < ChunkCount(file) && hash(data) == ChunkAt(file, k, hash).sha
                    && data != ChunkAt(file, k, hash).data;
      var actions := ForgeryIsAcknowledged(file, k, data, hash);
      ChunkExtends(file, k, hash);
      var prefix := file[..Boundary(file, k)];
      assert (prefix + data)[|prefix|..] == data;
      assert (prefix + ChunkAt(file, k, hash).data)[|prefix|..] == ChunkAt(file, k, hash).data;
      assert !RightSoFar(Run(file, hash, actions), file);
    }
  }
}
