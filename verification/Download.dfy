/** The sending side of a file transfer: the chunking loop and the frames it sends. */
module Download {
  import opened Wrappers
  import opened Bytes
  import opened Framing

  const CHUNK_SIZE: nat := 61440

  /** One chunk as it is framed. */
  datatype Chunk = Chunk(offset: nat, seqNo: nat, flags: byte, data: Bytes)

  /** How many bytes a read at each position returns: any amount a read may return, and 0 only at the end. */
  type Reads = nat -> nat

  ghost predicate LegalReads(file: Bytes, read: Reads) {
    forall pos :: 0 <= pos < |file| ==> 1 <= read(pos) <= CHUNK_SIZE && pos + read(pos) <= |file|
  }

  /** Every read fills its buffer unless the file ends first. */
  ghost predicate FullReads(file: Bytes, read: Reads) {
    forall pos :: 0 <= pos < |file| ==> read(pos) == if |file| - pos < CHUNK_SIZE then |file| - pos else CHUNK_SIZE
  }

  function Min(a: nat, b: nat): (m: nat)
    ensures m <= a && m <= b && (m == a || m == b)
  {
    if a < b then a else b
  }

  function FlagsFor(n: nat): byte { if n < CHUNK_SIZE then FLAG_FINAL else 0 }

  /** The chunks of file[pos..], the first numbered after `seqNo`; the 32-bit number wraps. */
  function Chunks(file: Bytes, pos: nat, seqNo: nat, read: Reads): seq<Chunk>
    requires LegalReads(file, read) && pos <= |file|
    decreases |file| - pos
  {
    if pos == |file| then []
    else
      var n := read(pos);
      var next := (seqNo + 1) % U32_LIMIT;
      [Chunk(pos, next, FlagsFor(n), file[pos..pos + n])] + Chunks(file, pos + n, next, read)
  }

  function Encode(id: Bytes, c: Chunk): Bytes {
    BuildFrame(id, c.offset, c.seqNo, c.flags, c.data)
  }

  function Payloads(cs: seq<Chunk>): Bytes {
    if cs == [] then [] else cs[0].data + Payloads(cs[1..])
  }

  /** What the frames carry after their headers. */
  function Carried(frames: seq<Bytes>): Bytes {
    if frames == [] then []
    else Carried(frames[..|frames| - 1])
         + if |frames[|frames| - 1]| >= FRAME_HEADER_SIZE then frames[|frames| - 1][FRAME_HEADER_SIZE..] else []
  }

  /** The part of the file that a download resumed at an offset lacks. */
  function Rest(file: Bytes, resume: nat): Bytes { if resume < |file| then file[resume..] else [] }

  lemma {:induction false} PayloadsOn(cs: seq<Chunk>, c: Chunk)
    ensures Payloads(cs + [c]) == Payloads(cs) + c.data
  {
    if cs != [] {
      PayloadsOn(cs[1..], c);
      assert (cs + [c])[1..] == cs[1..] + [c];
    } else {
      assert cs + [c] == [c] && c.data + [] == c.data;
    }
  }

  lemma {:induction false} CarriedPayloads(id: Bytes, cs: seq<Chunk>, frames: seq<Bytes>)
    requires |id| <= FRAME_ID_SIZE && |frames| <= |cs|
    requires forall k :: 0 <= k < |frames| ==> frames[k] == Encode(id, cs[k])
    ensures Carried(frames) == Payloads(cs[..|frames|])
  {
    if frames != [] {
      var n := |frames| - 1;
      CarriedPayloads(id, cs, frames[..n]);
      FrameLayout(id, cs[n].offset, cs[n].seqNo, cs[n].flags, cs[n].data);
      assert cs[..n + 1] == cs[..n] + [cs[n]];
      PayloadsOn(cs[..n], cs[n]);
    }
  }

  lemma {:induction false} PayloadsPrefix(cs: seq<Chunk>, n: nat)
    requires n <= |cs|
    ensures Payloads(cs[..n]) <= Payloads(cs)
  {
    if n < |cs| {
      PayloadsPrefix(cs[..|cs| - 1], n);
      assert cs[..|cs| - 1][..n] == cs[..n] && cs == cs[..|cs| - 1] + [cs[|cs| - 1]];
      PayloadsOn(cs[..|cs| - 1], cs[|cs| - 1]);
    } else {
      assert cs[..n] == cs;
    }
  }

  /**
   Whatever is sent of the stream carries a prefix of what the download lacks, all of it when every frame is sent;
   there is a frame to send exactly when something is lacking, and the first one is at the offset resumed from.
   */
  lemma StreamCarriesTheRest(file: Bytes, resume: nat, id: Bytes, read: Reads, sent: seq<Bytes>)
    requires LegalReads(file, read) && |id| <= FRAME_ID_SIZE
    requires var all := Chunks(file, Min(resume, |file|), 0, read);
             |sent| <= |all| && forall k :: 0 <= k < |sent| ==> sent[k] == Encode(id, all[k])
    ensures Carried(sent) <= Rest(file, resume)
    ensures |sent| == |Chunks(file, Min(resume, |file|), 0, read)| ==> Carried(sent) == Rest(file, resume)
    ensures Chunks(file, Min(resume, |file|), 0, read) != [] <==> resume < |file|
    ensures sent != [] && |file| < U64_LIMIT && NoNulAtEnds(id) ==>
              ParseFrameHeader(sent[0]) != None && ParseFrameHeader(sent[0]).value.offset == resume
  {
    var all := Chunks(file, Min(resume, |file|), 0, read);
    PayloadsAreTheRest(file, Min(resume, |file|), 0, read);
    CarriedPayloads(id, all, sent);
    PayloadsPrefix(all, |sent|);
    if |sent| == |all| { assert all[..|sent|] == all; }
    if sent != [] && |file| < U64_LIMIT && NoNulAtEnds(id) { EncodeSays(id, all[0]); }
  }

  // ----- The loops -----

  /** The id field is pushed, then NULs up to 36 bytes; a longer id is not cut. */
  method PushFrame(id: Bytes, c: Chunk) returns (frame: Bytes)
    ensures frame == Encode(id, c)
  {
    frame := [FRAME_MAGIC] + id;
    var k := |id|;
    while k < FRAME_ID_SIZE
      invariant |id| <= k && (k <= FRAME_ID_SIZE || k == |id|)
      invariant frame == [FRAME_MAGIC] + (id + Zeros(k - |id|))
    {
      frame := frame + [0];
      assert Zeros(k + 1 - |id|) == Zeros(k - |id|) + [0];
      k := k + 1;
    }
    frame := frame + ToBE(c.offset, 8);
    frame := frame + ToBE(c.seqNo, 4);
    frame := frame + [c.flags] + c.data;
  }

  /** The digest of the whole file, absorbed read by read. */
  method HashWhole(sha: Bytes -> string, file: Bytes, read: Reads) returns (hash: string)
    requires LegalReads(file, read)
    ensures hash == sha(file)
  {
    var pos, hasher: Bytes := 0, [];
    while pos < |file|
      invariant pos <= |file| && hasher == file[..pos]
      decreases |file| - pos
    {
      var n := read(pos);
      hasher := hasher + file[pos..pos + n];
      pos := pos + n;
    }
    assert file[..pos] == file;
    hash := sha(hasher);
  }

  /**
   Streams file[resume..]. `cancelled(k)` and `sendFails(k)` say what happens when frame k is due.
   A cancelled stream sends a prefix of the frames and nothing after; a failed send ends the frames but not the stream.
   */
  method StreamDownload(sha: Bytes -> string, file: Bytes, resume: nat, id: Bytes, hashRead: Reads, read: Reads,
                        cancelled: nat -> bool, sendFails: nat -> bool)
    returns (sent: seq<Bytes>, end: Option<string>)
    requires LegalReads(file, read) && LegalReads(file, hashRead)
    ensures var all := Chunks(file, Min(resume, |file|), 0, read);
            && |sent| <= |all|
            && (forall k :: 0 <= k < |sent| ==> sent[k] == Encode(id, all[k]))
            && (|sent| < |all| ==> cancelled(|sent|) || sendFails(|sent|))
    ensures |id| <= FRAME_ID_SIZE ==>
              && Carried(sent) <= Rest(file, resume)
              && (!cancelled(|sent|) && !sendFails(|sent|) ==> Carried(sent) == Rest(file, resume))
              && (resume >= |file| ==> sent == [])
    ensures |id| <= FRAME_ID_SIZE && NoNulAtEnds(id) && |file| < U64_LIMIT && sent != [] ==>
              ParseFrameHeader(sent[0]) != None && ParseFrameHeader(sent[0]).value.offset == resume
    ensures end == if cancelled(|sent|) then None else Some(sha(file))
  {
    hide Encode, FlagsFor;
    var hash := HashWhole(sha, file, hashRead);
    var offset := Min(resume, |file|);
    var seqNo: nat := 0;
    ghost var all := Chunks(file, offset, 0, read);
    sent, end := [], None;
    while true
      invariant offset <= |file| && |sent| <= |all|
      invariant forall k :: 0 <= k < |sent| ==> sent[k] == Encode(id, all[k])
      invariant all[|sent|..] == Chunks(file, offset, seqNo, read)
      decreases |file| - offset
    {
      if cancelled(|sent|) {
        if |id| <= FRAME_ID_SIZE { StreamCarriesTheRest(file, resume, id, read, sent); }
        return;
      }
      if offset == |file| { break; }
      var n := read(offset);
      seqNo := (seqNo + 1) % U32_LIMIT;
      var frame := PushFrame(id, Chunk(offset, seqNo, FlagsFor(n), file[offset..offset + n]));
      if sendFails(|sent|) { break; }
      assert all[|sent| + 1..] == all[|sent|..][1..];
      sent := sent + [frame];
      offset := offset + n;
    }
    if |id| <= FRAME_ID_SIZE { StreamCarriesTheRest(file, resume, id, read, sent); }
    end := Some(hash);
  }

  // ----- What the frames say -----

  /** The frame parses to the chunk's fields and carries its data. */
  predicate Says(f: Bytes, id: Bytes, c: Chunk) {
    && ParseFrameHeader(f) == Some(Header(id, c.offset, c.seqNo, c.flags))
    && f[FRAME_HEADER_SIZE..] == c.data
  }

  lemma EncodeSays(id: Bytes, c: Chunk)
    requires c.offset < U64_LIMIT && c.seqNo < U32_LIMIT && |id| <= FRAME_ID_SIZE && NoNulAtEnds(id)
    ensures Says(Encode(id, c), id, c)
  {
    FrameRoundTrip(id, c.offset, c.seqNo, c.flags, c.data);
  }

  lemma SliceJoin<T>(s: seq<T>, a: nat, b: nat)
    requires a <= b <= |s|
    ensures s[a..b] + s[b..] == s[a..]
  {}

  lemma {:induction false} PayloadsAreTheRest(file: Bytes, pos: nat, seqNo: nat, read: Reads)
    requires LegalReads(file, read) && pos <= |file|
    ensures Payloads(Chunks(file, pos, seqNo, read)) == file[pos..]
    decreases |file| - pos
  {
    if pos < |file| {
      PayloadsAreTheRest(file, pos + read(pos), (seqNo + 1) % U32_LIMIT, read);
      SliceJoin(file, pos, pos + read(pos));
    }
  }

  lemma {:induction false} ChunkByIndex(file: Bytes, pos: nat, seqNo: nat, read: Reads, i: nat)
    requires LegalReads(file, read) && pos <= |file|
    requires seqNo + |Chunks(file, pos, seqNo, read)| < U32_LIMIT
    requires i < |Chunks(file, pos, seqNo, read)|
    ensures var cs := Chunks(file, pos, seqNo, read);
            var at := pos + |Payloads(cs[..i])|;
            && at < |file|
            && cs[i] == Chunk(at, seqNo + i + 1, FlagsFor(read(at)), file[at..at + read(at)])
    decreases i
  {
    ChunksEmpty(file, pos, seqNo, read);
    ChunksTail(file, pos, seqNo, read);
    var cs := Chunks(file, pos, seqNo, read);
    hide Chunks, FlagsFor;
    if i > 0 {
      ChunkByIndex(file, pos + read(pos), seqNo + 1, read, i - 1);
      PayloadsTail(cs, i);
      hide Payloads;
      assert cs[i] == cs[1..][i - 1];
    }
  }

  lemma ChunksEmpty(file: Bytes, pos: nat, seqNo: nat, read: Reads)
    requires LegalReads(file, read) && pos <= |file|
    ensures Chunks(file, pos, seqNo, read) != [] <==> pos < |file|
  {}

  lemma ChunksTail(file: Bytes, pos: nat, seqNo: nat, read: Reads)
    requires LegalReads(file, read) && pos < |file| && seqNo + 1 < U32_LIMIT
    ensures var cs := Chunks(file, pos, seqNo, read);
            && |cs| > 0 && cs[0] == Chunk(pos, seqNo + 1, FlagsFor(read(pos)), file[pos..pos + read(pos)])
            && cs[1..] == Chunks(file, pos + read(pos), seqNo + 1, read)
  {}

  lemma PayloadsTail(cs: seq<Chunk>, i: nat)
    requires 0 < i <= |cs|
    ensures |Payloads(cs[..i])| == |cs[0].data| + |Payloads(cs[1..][..i - 1])|
  {
    assert cs[..i][1..] == cs[1..][..i - 1];
  }

  /**
   For every split of reads: the frames are numbered 1, 2, 3, ..., each starts where the payloads before
   it end, FINAL marks exactly the reads that came back short, and the payloads are the rest of the file.
   */
  lemma StreamRebuildsFile(file: Bytes, resume: nat, read: Reads)
    requires LegalReads(file, read)
    requires |Chunks(file, Min(resume, |file|), 0, read)| < U32_LIMIT
    ensures var start := Min(resume, |file|);
            var cs := Chunks(file, start, 0, read);
            && Payloads(cs) == file[start..]
            && forall i :: 0 <= i < |cs| ==>
                 && cs[i].seqNo == i + 1
                 && cs[i].offset == start + |Payloads(cs[..i])|
                 && (IsFinal(cs[i].flags) <==> |cs[i].data| < CHUNK_SIZE)
  {
    var start := Min(resume, |file|);
    PayloadsAreTheRest(file, start, 0, read);
    forall i | 0 <= i < |Chunks(file, start, 0, read)|
      ensures var cs := Chunks(file, start, 0, read);
              && cs[i].seqNo == i + 1
              && cs[i].offset == start + |Payloads(cs[..i])|
              && (IsFinal(cs[i].flags) <==> |cs[i].data| < CHUNK_SIZE)
    {
      ChunkByIndex(file, start, 0, read, i);
    }
  }

  /**
   With full reads, FINAL is on the last chunk only, and is missing exactly when the rest is a whole number of chunks.
   */
  lemma {:induction false} FullReadsMarkTheEnd(file: Bytes, pos: nat, seqNo: nat, read: Reads)
    requires LegalReads(file, read) && FullReads(file, read) && pos <= |file|
    ensures var cs := Chunks(file, pos, seqNo, read);
            && |cs| == (|file| - pos + CHUNK_SIZE - 1) / CHUNK_SIZE
            && forall i :: 0 <= i < |cs| ==>
                 (IsFinal(cs[i].flags) <==> i == |cs| - 1 && (|file| - pos) % CHUNK_SIZE != 0)
    decreases |file| - pos
  {
    if pos < |file| {
      var cs := Chunks(file, pos, seqNo, read);
      var n, next := read(pos), (seqNo + 1) % U32_LIMIT;
      assert cs[1..] == Chunks(file, pos + n, next, read);
      FullReadsMarkTheEnd(file, pos + n, next, read);
      ChunksLeft(|file| - pos, n);
      forall i | 0 < i < |cs| ensures cs[i] == cs[1..][i - 1] {}
    }
  }

  lemma ChunksLeft(left: nat, n: nat)
    requires left > 0 && n == if left < CHUNK_SIZE then left else CHUNK_SIZE
    ensures (left + CHUNK_SIZE - 1) / CHUNK_SIZE == 1 + (left - n + CHUNK_SIZE - 1) / CHUNK_SIZE
    ensures n == CHUNK_SIZE ==> left % CHUNK_SIZE == (left - n) % CHUNK_SIZE
    ensures left - n == 0 ==> (n < CHUNK_SIZE <==> left % CHUNK_SIZE != 0)
  {}
}
