// Chunked file transfer (crates/decentgpu-common/src/transfer.rs:59-188): the two loops, and the
// protocol they form when they run against each other.
module Transfer {
  import opened Types
  import opened Framing

  const CHUNK_SIZE := 64 * 1024

  /** SHA-256 is any function here; what it must not do is stated where it matters. */
  type Hash = seq<Byte> -> seq<Byte>

  datatype Chunk = Chunk(offset: nat, data: seq<Byte>, isLast: bool, sha: seq<Byte>)

  datatype Ack = Ack(offset: nat, ok: bool)

  function Min(a: nat, b: nat): nat {
    if a < b then a else b
  }

  // ── The chunks of a file ───────────────────────────────────────────────────────────────

  /** Number of chunks: the file length over 65536, rounded up. */
  function ChunkCount(file: seq<Byte>): nat {
    (|file| + CHUNK_SIZE - 1) / CHUNK_SIZE
  }

  /** Where chunk `i` starts. */
  function Boundary(file: seq<Byte>, i: nat): nat {
    Min(i * CHUNK_SIZE, |file|)
  }

  function ChunkAt(file: seq<Byte>, i: nat, hash: Hash): Chunk {
    var data := file[Boundary(file, i)..Boundary(file, i + 1)];
    Chunk(i * CHUNK_SIZE, data, i + 1 == ChunkCount(file), hash(data))
  }

  function Chunks(file: seq<Byte>, hash: Hash): seq<Chunk> {
    seq(ChunkCount(file), i requires 0 <= i => ChunkAt(file, i, hash))
  }

  lemma ChunkCountMeaning(file: seq<Byte>, i: nat)
    ensures i < ChunkCount(file) <==> i * CHUNK_SIZE < |file|
    ensures i + 1 == ChunkCount(file) ==> Boundary(file, i + 1) == |file|
    ensures i + 1 < ChunkCount(file) ==> Boundary(file, i + 1) == (i + 1) * CHUNK_SIZE < |file|
    ensures i == ChunkCount(file) ==> Boundary(file, i) == |file|
  {
  }

  /** The chunk cut from what remains of a file at offset `i * CHUNK_SIZE` is chunk `i`. */
  lemma CutIsChunk(file: seq<Byte>, i: nat, hash: Hash)
    requires i < ChunkCount(file)
    ensures i * CHUNK_SIZE < |file|
    ensures var remaining := file[i * CHUNK_SIZE..];
            var n := Min(|remaining|, CHUNK_SIZE);
            && ChunkAt(file, i, hash)
               == Chunk(i * CHUNK_SIZE, remaining[..n], remaining[n..] == [], hash(remaining[..n]))
            && remaining[n..] == file[Boundary(file, i + 1)..]
            && i * CHUNK_SIZE + n == Boundary(file, i + 1)
  {
    ChunkCountMeaning(file, i);
    ChunkCountMeaning(file, i + 1);
    var remaining := file[i * CHUNK_SIZE..];
    var n := Min(|remaining|, CHUNK_SIZE);
    assert remaining[..n] == file[Boundary(file, i)..Boundary(file, i + 1)];
    assert remaining[n..] == file[Boundary(file, i + 1)..];
  }

  // ── The two loops, each against a script of what it reads ──────────────────────────────

  /** The answer to the `i`-th chunk: `None` stands for a timeout, a broken stream or a
      message that is not an ACK. */
  predicate Accepted(answers: seq<Option<Ack>>, i: nat) {
    i < |answers| && answers[i].Some? && answers[i].value.ok
  }

  /** The `i`-th piece of 64 KiB, or what is left of the file, with its place and its hash. */
  predicate IsPiece(c: Chunk, file: seq<Byte>, i: nat, hash: Hash) {
    && 65_536 * i < |file|
    && var end := if 65_536 * i + 65_536 < |file| then 65_536 * i + 65_536 else |file|;
       c == Chunk(65_536 * i, file[65_536 * i..end], end == |file|, hash(file[65_536 * i..end]))
  }

  lemma ChunkIsPiece(file: seq<Byte>, i: nat, hash: Hash)
    requires i < ChunkCount(file)
    ensures IsPiece(ChunkAt(file, i, hash), file, i, hash)
  {
    ChunkCountMeaning(file, i);
    ChunkCountMeaning(file, i + 1);
  }

  /** The chunks of a file are its pieces of 64 KiB, and together reach its end. */
  lemma ChunksInNumbers(file: seq<Byte>, hash: Hash)
    ensures forall i :: 0 <= i < |Chunks(file, hash)| ==> IsPiece(Chunks(file, hash)[i], file, i, hash)
    ensures |file| <= 65_536 * |Chunks(file, hash)|
  {
    forall i | 0 <= i < |Chunks(file, hash)|
      ensures IsPiece(Chunks(file, hash)[i], file, i, hash)
    {
      ChunkIsPiece(file, i, hash);
    }
  }

  /** What the loop cuts off is the next chunk. */
  lemma NextCut(file: seq<Byte>, i: nat, offset: nat, remaining: seq<Byte>, hash: Hash)
    requires i <= ChunkCount(file) && offset == Boundary(file, i) && remaining == file[offset..] && remaining != []
    ensures i < ChunkCount(file)
    ensures var n := Min(|remaining|, CHUNK_SIZE);
            && 0 < n <= |remaining|
            && Chunk(offset, remaining[..n], remaining[n..] == [], hash(remaining[..n])) == ChunkAt(file, i, hash)
            && offset + n == Boundary(file, i + 1) && remaining[n..] == file[offset + n..]
  {
    ChunkCountMeaning(file, i);
    CutIsChunk(file, i, hash);
  }

  lemma OneMoreChunk(file: seq<Byte>, sent: seq<Chunk>, hash: Hash)
    requires |sent| < ChunkCount(file) && sent == Chunks(file, hash)[..|sent|]
    ensures sent + [ChunkAt(file, |sent|, hash)] == Chunks(file, hash)[..|sent| + 1]
  {
  }

  /** Sends one chunk at a time and stops at the first answer that is not a positive ACK; a chunk
      that could not be written is the last of `sent`. */
  method SendFileChunked(file: seq<Byte>, answers: seq<Option<Ack>>, hash: Hash)
    returns (sent: seq<Chunk>, result: Option<nat>)
    ensures result.Some? ==> result.value == |file| && sent == Chunks(file, hash)
    ensures result.Some? <==> forall i :: 0 <= i < ChunkCount(file) ==> Accepted(answers, i)
    ensures result.None? ==>
              && 0 < |sent| <= ChunkCount(file)
              && sent == Chunks(file, hash)[..|sent|]
              && !Accepted(answers, |sent| - 1)
              && forall i :: 0 <= i < |sent| - 1 ==> Accepted(answers, i)
  {
    var offset := 0;
    var remaining := file;
    sent := [];
    while remaining != []
      invariant |sent| <= ChunkCount(file)
      invariant offset == Boundary(file, |sent|) && remaining == file[offset..]
      invariant sent == Chunks(file, hash)[..|sent|]
      invariant forall i :: 0 <= i < |sent| ==> Accepted(answers, i)
      decreases |remaining|
    {
      NextCut(file, |sent|, offset, remaining, hash);
      var n := Min(|remaining|, CHUNK_SIZE);
      var chunk := remaining[..n];
      remaining := remaining[n..];
      OneMoreChunk(file, sent, hash);
      sent := sent + [Chunk(offset, chunk, remaining == [], hash(chunk))];
      var k := |sent| - 1;
      if k >= |answers| || answers[k].None? || !answers[k].value.ok {
        assert !Accepted(answers, k);
        return sent, None;
      }
      offset := offset + n;
    }
    ChunkCountMeaning(file, |sent|);
    return sent, Some(|file|);
  }

  predicate Intact(chunk: Chunk, hash: Hash) {
    hash(chunk.data) == chunk.sha
  }

  function Flatten(chunks: seq<Chunk>): seq<Byte> {
    if chunks == [] then [] else Flatten(chunks[..|chunks| - 1]) + chunks[|chunks| - 1].data
  }

  /** What becomes of the file at the end: it is written, or the disk fails, having left it untouched
      or with only so many bytes. */
  datatype Disk = Written | Failed(bytes: Option<nat>)

  /** The first `k` frames are all good chunks, none of them closes the file, and the answers to
      them could be written. */
  predicate Continues(frames: seq<Option<Chunk>>, broken: set<nat>, k: nat, hash: Hash) {
    k <= |frames| && forall i :: 0 <= i < k ==>
      i !in broken && frames[i].Some? && Intact(frames[i].value, hash) && !frames[i].value.isLast
  }

  /** The `k`-th frame is the first that closes the file, and everything up to it is good. */
  predicate ClosesAt(frames: seq<Option<Chunk>>, broken: set<nat>, k: nat, hash: Hash) {
    k < |frames| && Continues(frames, broken, k, hash)
    && k !in broken && frames[k].Some? && Intact(frames[k].value, hash) && frames[k].value.isLast
  }

  function Values(frames: seq<Option<Chunk>>): seq<Chunk>
    requires forall f :: f in frames ==> f.Some?
  {
    seq(|frames|, i requires 0 <= i < |frames| => frames[i].value)
  }

  /** Reads chunks, answering each before it keeps the data; writes the file only after the last
      one. `broken` says which answers cannot be written; the output is `None` when the file is
      left untouched. */
  method ReceiveFileChunked(frames: seq<Option<Chunk>>, broken: set<nat>, disk: Disk, hash: Hash)
    returns (acks: seq<Ack>, output: Option<seq<Byte>>, result: Option<nat>)
    ensures result.Some? <==> disk.Written? && exists k :: ClosesAt(frames, broken, k, hash)
    ensures result.Some? ==> output.Some? && result.value == |output.value|
    ensures output.Some? ==>
              && 0 < |acks| && ClosesAt(frames, broken, |acks| - 1, hash)
              && var file := Flatten(Values(frames[..|acks|]));
                 if disk.Written? then result.Some? && output.value == file
                 else result.None? && disk.bytes.Some? && output.value == file[..Min(disk.bytes.value, |file|)]
    ensures result.None? ==>
              || (Continues(frames, broken, |acks|, hash)
                  && (|acks| == |frames| || frames[|acks|].None? || |acks| in broken))
              || (0 < |acks| && Continues(frames, broken, |acks| - 1, hash) && !acks[|acks| - 1].ok)
              || (disk.Failed? && 0 < |acks| && ClosesAt(frames, broken, |acks| - 1, hash))
    ensures forall i :: 0 <= i < |acks| ==>
              i < |frames| && i !in broken && frames[i].Some?
              && acks[i] == Ack(frames[i].value.offset, Intact(frames[i].value, hash))
  {
    var fileData: seq<Byte> := [];
    var total := 0;
    acks := [];
    while true
      invariant Continues(frames, broken, |acks|, hash)
      invariant fileData == Flatten(Values(frames[..|acks|]))
      invariant total == |fileData|
      invariant forall i :: 0 <= i < |acks| ==> acks[i] == Ack(frames[i].value.offset, true)
      decreases |frames| - |acks|
    {
      ghost var k := |acks|;
      if |acks| == |frames| || frames[|acks|].None? {
        return acks, None, None;
      }
      var chunk := frames[|acks|].value;
      var ok := hash(chunk.data) == chunk.sha;
      if |acks| in broken {
        return acks, None, None;
      }
      acks := acks + [Ack(chunk.offset, ok)];
      if !ok {
        return acks, None, None;
      }
      assert Values(frames[..k + 1])[..k] == Values(frames[..k]);
      fileData := fileData + chunk.data;
      total := total + |chunk.data|;
      if chunk.isLast {
        assert ClosesAt(frames, broken, k, hash);
        break;
      }
    }
    match disk {
      case Written =>
        return acks, Some(fileData), Some(total);
      case Failed(bytes) =>
        return acks, if bytes.None? then None else Some(fileData[..Min(bytes.value, |fileData|)]), None;
    }
  }

  /** The chunks of a file put back together are the file. */
  lemma {:induction false} FlattenChunks(file: seq<Byte>, k: nat, hash: Hash)
    requires k <= ChunkCount(file)
    ensures Flatten(Chunks(file, hash)[..k]) == file[..Boundary(file, k)]
  {
    if k > 0 {
      FlattenChunks(file, k - 1, hash);
      var prefix := Chunks(file, hash)[..k];
      assert prefix[..k - 1] == Chunks(file, hash)[..k - 1];
      ChunkCountMeaning(file, k - 1);
      assert file[..Boundary(file, k)]
          == file[..Boundary(file, k - 1)] + file[Boundary(file, k - 1)..Boundary(file, k)];
    }
  }

  lemma ChunksReassemble(file: seq<Byte>, hash: Hash)
    ensures Flatten(Chunks(file, hash)) == file
  {
    var n := ChunkCount(file);
    FlattenChunks(file, n, hash);
    ChunkCountMeaning(file, n);
    assert Chunks(file, hash)[..n] == Chunks(file, hash);
    assert file[..|file|] == file;
  }

  /** The chunks of a file, as a receiver reads them. */
  function FramesOf(file: seq<Byte>, hash: Hash): seq<Option<Chunk>> {
    seq(ChunkCount(file), i requires 0 <= i => Some(ChunkAt(file, i, hash)))
  }

  /** What a complete sender sends makes a receiver write exactly the file; an empty file sends
      nothing, and then no receiver ever finishes. */
  lemma LoopsCompose(file: seq<Byte>, hash: Hash)
    ensures Values(FramesOf(file, hash)) == Chunks(file, hash)
    ensures Flatten(Chunks(file, hash)) == file
    ensures if file == [] then FramesOf(file, hash) == []
            else ClosesAt(FramesOf(file, hash), {}, ChunkCount(file) - 1, hash)
  {
    ChunksReassemble(file, hash);
    ChunkCountMeaning(file, 0);
  }
}
